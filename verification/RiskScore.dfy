/** The 0-100 security score: capped penalties over counted findings. */
module RiskScore {
  import opened Ids
  import opened Graphs

  datatype Finding = ADMIN_PORT | PUBLIC_BUCKET | PUBLIC_COMPUTE | BROAD_IAM | SENSITIVE_EXPOSED | FULL_PATH

  datatype Penalty = Penalty(finding: Finding, points: nat, cap: nat)

  datatype Deduction = Deduction(finding: Finding, count: nat, points: int)

  const PENALTIES: seq<Penalty> := [
    Penalty(ADMIN_PORT, 20, 40),
    Penalty(PUBLIC_BUCKET, 20, 40),
    Penalty(PUBLIC_COMPUTE, 15, 30),
    Penalty(BROAD_IAM, 10, 20),
    Penalty(SENSITIVE_EXPOSED, 25, 25),
    Penalty(FULL_PATH, 20, 20)
  ]

  datatype Counts = Counts(adminPort: nat, publicBucket: nat, publicCompute: nat, broadIam: nat,
                           sensitiveExposed: nat, fullPath: nat) {
    function CountOf(finding: Finding): nat {
      match finding
      case ADMIN_PORT => adminPort
      case PUBLIC_BUCKET => publicBucket
      case PUBLIC_COMPUTE => publicCompute
      case BROAD_IAM => broadIam
      case SENSITIVE_EXPOSED => sensitiveExposed
      case FULL_PATH => fullPath
    }
  }

  /** What an analysis hands to the score. */
  datatype Facts = Facts(graph: Graph, exposed: set<Id>, reachableSensitive: set<Id>, criticalPaths: bool)

  predicate AdminEdge(g: Graph, e: Link)
    requires e in g.edges
  {
    e.0 == INTERNET_ID && g.edges[e].relationship == INGRESS_ALLOWS && g.edges[e].risk == CRITICAL
  }

  predicate BroadEdge(g: Graph, e: Link)
    requires e in g.edges
  {
    g.edges[e].relationship == CAN_ACCESS && g.edges[e].risk.Rank() >= HIGH.Rank()
  }

  predicate PublicEdge(g: Graph, e: Link)
    requires e in g.edges
  {
    e.0 == INTERNET_ID && g.edges[e].relationship == PUBLIC_ACCESS
  }

  function AdminEdges(g: Graph): set<Link> { set e | e in g.edges && AdminEdge(g, e) }
  function BroadEdges(g: Graph): set<Link> { set e | e in g.edges && BroadEdge(g, e) }
  function PublicEdges(g: Graph): set<Link> { set e | e in g.edges && PublicEdge(g, e) }

  function Instances(f: Facts): set<Id> {
    set n | n in f.exposed && n in f.graph.nodes && f.graph.nodes[n].kind == EC2
  }

  function Tally(f: Facts): Counts {
    Counts(|AdminEdges(f.graph)|, |PublicEdges(f.graph)|, |Instances(f)|, |BroadEdges(f.graph)|,
           |f.reachableSensitive|, if f.criticalPaths || f.reachableSensitive != {} then 1 else 0)
  }

  /** The three edge counters hold exactly the matching edges among those seen. */
  ghost predicate Counted(g: Graph, seen: set<Link>, admin: nat, broad: nat, open: nat) {
    admin == |AdminEdges(g) * seen| && broad == |BroadEdges(g) * seen| && open == |PublicEdges(g) * seen|
  }

  /** Moving one edge from the unseen to the seen ones moves the counters along. */
  lemma CountedStep(g: Graph, left: set<Link>, admin: nat, broad: nat, open: nat, e: Link)
    requires left <= g.edges.Keys && e in left && Counted(g, g.edges.Keys - left, admin, broad, open)
    ensures Counted(g, g.edges.Keys - (left - {e}), if AdminEdge(g, e) then admin + 1 else admin,
                    if BroadEdge(g, e) then broad + 1 else broad, if PublicEdge(g, e) then open + 1 else open)
  {
    var seen := g.edges.Keys - left;
    assert g.edges.Keys - (left - {e}) == seen + {e};
    CountOne(AdminEdges(g), seen, e);
    CountOne(BroadEdges(g), seen, e);
    CountOne(PublicEdges(g), seen, e);
  }

  lemma CountedAll(g: Graph, admin: nat, broad: nat, open: nat)
    requires Counted(g, g.edges.Keys, admin, broad, open)
    ensures admin == |AdminEdges(g)| && broad == |BroadEdges(g)| && open == |PublicEdges(g)|
  {
    var all := g.edges.Keys;
    assert AdminEdges(g) * all == AdminEdges(g) && BroadEdges(g) * all == BroadEdges(g)
        && PublicEdges(g) * all == PublicEdges(g);
  }

  /** Counts findings edge by edge, as a loop over the graph's edges in any order. */
  method CountFindings(f: Facts) returns (counts: Counts)
    ensures counts == Tally(f)
  {
    var g := f.graph;
    var admin: nat, broad: nat, open: nat := 0, 0, 0;
    var left := g.edges.Keys;
    assert g.edges.Keys - left == {};
    while left != {}
      invariant left <= g.edges.Keys && Counted(g, g.edges.Keys - left, admin, broad, open)
      decreases left
    {
      var e :| e in left;
      CountedStep(g, left, admin, broad, open, e);
      left := left - {e};
      if AdminEdge(g, e) { admin := admin + 1; }
      if BroadEdge(g, e) { broad := broad + 1; }
      if PublicEdge(g, e) { open := open + 1; }
    }
    assert g.edges.Keys - left == g.edges.Keys;
    CountedAll(g, admin, broad, open);
    counts := Counts(admin, open, |Instances(f)|, broad, |f.reachableSensitive|,
                     if f.criticalPaths || f.reachableSensitive != {} then 1 else 0);
  }

  lemma CountOne<T>(s: set<T>, seen: set<T>, e: T)
    requires e !in seen
    ensures |s * (seen + {e})| == |s * seen| + (if e in s then 1 else 0)
  {
    if e in s {
      assert s * (seen + {e}) == s * seen + {e};
    } else {
      assert s * (seen + {e}) == s * seen;
    }
  }

  function Deducted(counts: Counts, p: Penalty): nat {
    var count := counts.CountOf(p.finding);
    if p.points * count <= p.cap then p.points * count else p.cap
  }

  lemma DeductedIsPositive(counts: Counts, i: nat)
    requires i < |PENALTIES| && counts.CountOf(PENALTIES[i].finding) != 0
    ensures Deducted(counts, PENALTIES[i]) > 0
  {
    var p, count := PENALTIES[i], counts.CountOf(PENALTIES[i].finding);
    assert p.points > 0 && p.cap > 0;
    assert p.points * count == p.points * (count - 1) + p.points;
  }

  function TotalDeducted(counts: Counts, n: nat): nat
    requires n <= |PENALTIES|
  {
    if n == 0 then 0 else TotalDeducted(counts, n - 1) + Deducted(counts, PENALTIES[n - 1])
  }

  function Clamp(score: int): int {
    if score < 0 then 0 else if score > 100 then 100 else score
  }

  function Score(f: Facts): int {
    Clamp(100 - TotalDeducted(Tally(f), |PENALTIES|))
  }

  // ---------------------------------------------------------------- the score in plain numbers

  /** A public rule for an administrative port: what `INGRESS_ALLOWS` at critical risk stands for. */
  ghost predicate OpensAdminPort(g: Graph, e: Link) {
    e in g.edges && e.0 == "INTERNET" && g.edges[e] == Edge(INGRESS_ALLOWS, CRITICAL)
  }

  ghost predicate OpensBucket(g: Graph, e: Link) {
    e in g.edges && e.0 == "INTERNET" && g.edges[e].relationship == PUBLIC_ACCESS
  }

  ghost predicate GrantsBroadly(g: Graph, e: Link) {
    e in g.edges && g.edges[e].relationship == CAN_ACCESS && g.edges[e].risk in {HIGH, CRITICAL}
  }

  ghost predicate ExposesInstance(f: Facts, n: Id) {
    n in f.exposed && n in f.graph.nodes && f.graph.nodes[n].kind == EC2
  }

  function AtMost(n: nat, cap: nat): nat {
    if n <= cap then n else cap
  }

  /**
   * The published rules: 20 points for every open administrative port and every public bucket, 15 for every reachable
   * instance, 10 for every broad grant, each up to twice that; 25 when sensitive data is reachable and 20 when a whole
   * path to it is.
   */
  lemma ScoreMeans(f: Facts, ports: set<Link>, buckets: set<Link>, grants: set<Link>, instances: set<Id>)
    requires forall e :: e in ports <==> OpensAdminPort(f.graph, e)
    requires forall e :: e in buckets <==> OpensBucket(f.graph, e)
    requires forall e :: e in grants <==> GrantsBroadly(f.graph, e)
    requires forall n :: n in instances <==> ExposesInstance(f, n)
    ensures var left := 100 - AtMost(20 * |ports|, 40) - AtMost(20 * |buckets|, 40) - AtMost(15 * |instances|, 30)
                            - AtMost(10 * |grants|, 20) - (if f.reachableSensitive != {} then 25 else 0)
                            - (if f.criticalPaths || f.reachableSensitive != {} then 20 else 0);
      Score(f) == if left < 0 then 0 else left
  {
    assert ports == AdminEdges(f.graph) && buckets == PublicEdges(f.graph) && grants == BroadEdges(f.graph);
    assert instances == Instances(f);
    hide AdminEdges, PublicEdges, BroadEdges, Instances, TotalDeducted, AtMost;
    TotalInNumbers(Tally(f));
    SomeOrNone(f.reachableSensitive);
  }

  lemma SomeOrNone<T>(s: set<T>)
    ensures AtMost(25 * |s|, 25) == if s != {} then 25 else 0
  {
    assert s != {} ==> |s| > 0;
  }

  lemma TotalInNumbers(c: Counts)
    ensures TotalDeducted(c, |PENALTIES|)
         == AtMost(20 * c.adminPort, 40) + AtMost(20 * c.publicBucket, 40) + AtMost(15 * c.publicCompute, 30)
            + AtMost(10 * c.broadIam, 20) + AtMost(25 * c.sensitiveExposed, 25) + AtMost(20 * c.fullPath, 20)
  {
    DeductionInNumbers(c, ADMIN_PORT, 20, 40);
    DeductionInNumbers(c, PUBLIC_BUCKET, 20, 40);
    DeductionInNumbers(c, PUBLIC_COMPUTE, 15, 30);
    DeductionInNumbers(c, BROAD_IAM, 10, 20);
    DeductionInNumbers(c, SENSITIVE_EXPOSED, 25, 25);
    DeductionInNumbers(c, FULL_PATH, 20, 20);
    hide Deducted, AtMost;
    assert PENALTIES[0] == Penalty(ADMIN_PORT, 20, 40) && PENALTIES[1] == Penalty(PUBLIC_BUCKET, 20, 40);
    assert PENALTIES[2] == Penalty(PUBLIC_COMPUTE, 15, 30) && PENALTIES[3] == Penalty(BROAD_IAM, 10, 20);
    assert PENALTIES[4] == Penalty(SENSITIVE_EXPOSED, 25, 25) && PENALTIES[5] == Penalty(FULL_PATH, 20, 20);
    assert TotalDeducted(c, 1) == Deducted(c, PENALTIES[0]);
    assert TotalDeducted(c, 2) == TotalDeducted(c, 1) + Deducted(c, PENALTIES[1]);
    assert TotalDeducted(c, 3) == TotalDeducted(c, 2) + Deducted(c, PENALTIES[2]);
    assert TotalDeducted(c, 4) == TotalDeducted(c, 3) + Deducted(c, PENALTIES[3]);
    assert TotalDeducted(c, 5) == TotalDeducted(c, 4) + Deducted(c, PENALTIES[4]);
    assert TotalDeducted(c, 6) == TotalDeducted(c, 5) + Deducted(c, PENALTIES[5]);
  }

  lemma DeductionInNumbers(c: Counts, k: Finding, points: nat, cap: nat)
    ensures Deducted(c, Penalty(k, points, cap)) == AtMost(points * c.CountOf(k), cap)
  {
  }

  /** Full marks go exactly to a graph without any finding. */
  lemma FullMarksExactly(f: Facts)
    ensures Score(f) == 100 <==>
      && (forall e :: !OpensAdminPort(f.graph, e) && !OpensBucket(f.graph, e) && !GrantsBroadly(f.graph, e))
      && (forall n :: !ExposesInstance(f, n)) && f.reachableSensitive == {} && !f.criticalPaths
  {
    var g := f.graph;
    var ports, buckets, grants, instances := AdminEdges(g), PublicEdges(g), BroadEdges(g), Instances(f);
    assert forall e :: e in ports <==> OpensAdminPort(g, e);
    assert forall e :: e in buckets <==> OpensBucket(g, e);
    assert forall e :: e in grants <==> GrantsBroadly(g, e);
    assert forall n :: n in instances <==> ExposesInstance(f, n);
    ScoreMeans(f, ports, buckets, grants, instances);
    hide Score, OpensAdminPort, OpensBucket, GrantsBroadly, ExposesInstance;
    assert |ports| == 0 <==> ports == {};
    assert |buckets| == 0 <==> buckets == {};
    assert |grants| == 0 <==> grants == {};
    assert |instances| == 0 <==> instances == {};
  }

  function Points(breakdown: seq<Deduction>): int {
    if breakdown == [] then 0 else Points(breakdown[..|breakdown| - 1]) + breakdown[|breakdown| - 1].points
  }

  lemma PointsOfMore(breakdown: seq<Deduction>, d: Deduction)
    ensures Points(breakdown + [d]) == Points(breakdown) + d.points
  {
    assert (breakdown + [d])[..|breakdown + [d]| - 1] == breakdown;
  }

  /** The breakdown lists, once each, the findings among the first penalties that were counted. */
  ghost predicate Lists(breakdown: seq<Deduction>, counts: Counts, n: nat)
    requires n <= |PENALTIES|
  {
    && (forall j :: 0 <= j < n && counts.CountOf(PENALTIES[j].finding) > 0 ==>
          exists d :: d in breakdown && d.finding == PENALTIES[j].finding)
    && (forall d :: d in breakdown ==> exists j :: 0 <= j < n && PENALTIES[j].finding == d.finding)
    && forall i, j :: 0 <= i < j < |breakdown| ==> breakdown[i].finding != breakdown[j].finding
  }

  lemma NothingListed(counts: Counts)
    ensures Lists([], counts, 0)
  {
  }

  lemma OnlyOnce(i: nat)
    requires i < |PENALTIES|
    ensures forall j :: 0 <= j < i ==> PENALTIES[j].finding != PENALTIES[i].finding
  {
  }

  /** The next finding is listed when it was counted, and left out otherwise. */
  lemma ListsStep(breakdown: seq<Deduction>, counts: Counts, i: nat, d: Deduction)
    requires i < |PENALTIES| && Lists(breakdown, counts, i) && d.finding == PENALTIES[i].finding
    ensures if counts.CountOf(d.finding) == 0 then Lists(breakdown, counts, i + 1)
            else Lists(breakdown + [d], counts, i + 1)
  {
    hide PENALTIES, Counts.CountOf;
    OnlyOnce(i);
    if counts.CountOf(d.finding) > 0 {
      var more := breakdown + [d];
      assert more[|breakdown|] == d && forall x :: x in breakdown ==> x in more;
      forall a, b | 0 <= a < b < |more| ensures more[a].finding != more[b].finding {
        if b == |breakdown| {
          assert more[a] in breakdown;
          var j :| 0 <= j < i && PENALTIES[j].finding == more[a].finding;
        }
      }
    }
  }

  lemma ListsAll(breakdown: seq<Deduction>, counts: Counts)
    requires Lists(breakdown, counts, |PENALTIES|)
    requires forall d :: d in breakdown ==> d.count > 0 && d.count == counts.CountOf(d.finding)
    ensures forall k: Finding :: counts.CountOf(k) > 0 <==> exists d :: d in breakdown && d.finding == k
    ensures forall i, j :: 0 <= i < j < |breakdown| ==> breakdown[i].finding != breakdown[j].finding
  {
    forall k: Finding ensures counts.CountOf(k) > 0 <==> exists d :: d in breakdown && d.finding == k {
      EveryFindingHasAPenalty(k);
    }
  }

  lemma EveryFindingHasAPenalty(k: Finding)
    ensures exists j :: 0 <= j < |PENALTIES| && PENALTIES[j].finding == k
  {
    assert PENALTIES[0].finding == ADMIN_PORT && PENALTIES[1].finding == PUBLIC_BUCKET;
    assert PENALTIES[2].finding == PUBLIC_COMPUTE && PENALTIES[3].finding == BROAD_IAM;
    assert PENALTIES[4].finding == SENSITIVE_EXPOSED && PENALTIES[5].finding == FULL_PATH;
  }

  method ScoreAnalysis(f: Facts) returns (score: int, breakdown: seq<Deduction>)
    ensures score == Score(f) && 0 <= score <= 100
    ensures score == Clamp(100 + Points(breakdown))
    ensures forall d :: d in breakdown ==> d.count > 0 && d.points < 0 && d.count == Tally(f).CountOf(d.finding)
    ensures forall k: Finding :: Tally(f).CountOf(k) > 0 <==> exists d :: d in breakdown && d.finding == k
    ensures forall i, j :: 0 <= i < j < |breakdown| ==> breakdown[i].finding != breakdown[j].finding
  {
    hide Lists, Tally;
    var counts := CountFindings(f);
    score, breakdown := 100, [];
    NothingListed(counts);
    for i := 0 to |PENALTIES|
      invariant score == 100 - TotalDeducted(counts, i) == 100 + Points(breakdown)
      invariant forall d :: d in breakdown ==> d.count > 0 && d.points < 0 && d.count == counts.CountOf(d.finding)
      invariant Lists(breakdown, counts, i)
    {
      var p := PENALTIES[i];
      var count := counts.CountOf(p.finding);
      ListsStep(breakdown, counts, i, Deduction(p.finding, count, -(Deducted(counts, p) as int)));
      if count != 0 {
        var deducted: int := Deducted(counts, p);
        DeductedIsPositive(counts, i);
        score := score - deducted;
        PointsOfMore(breakdown, Deduction(p.finding, count, -deducted));
        breakdown := breakdown + [Deduction(p.finding, count, -deducted)];
      }
    }
    ListsAll(breakdown, counts);
    score := Clamp(score);
  }

  // ---------------------------------------------------------------- monotonicity

  /** The same nodes, with edges only added or made riskier; an edge keeps its relationship. */
  ghost predicate Weaker(g: Graph, h: Graph) {
    && g.nodes == h.nodes
    && EdgesWithin(g, h)
    && (forall e :: e in g.edges ==> g.edges[e].relationship == h.edges[e].relationship)
    && (forall e :: e in g.edges ==> g.edges[e].risk.Rank() <= h.edges[e].risk.Rank())
  }

  ghost predicate NoMoreThan(a: Counts, b: Counts) {
    forall k: Finding :: a.CountOf(k) <= b.CountOf(k)
  }

  lemma {:induction false} DeductionsGrow(a: Counts, b: Counts, n: nat)
    requires NoMoreThan(a, b) && n <= |PENALTIES|
    ensures TotalDeducted(a, n) <= TotalDeducted(b, n)
  {
    if n > 0 {
      DeductionsGrow(a, b, n - 1);
      var p := PENALTIES[n - 1];
      var x, y := a.CountOf(p.finding), b.CountOf(p.finding);
      assert p.points * x <= p.points * y;
    }
  }

  lemma SmallerSet<T>(a: set<T>, b: set<T>)
    requires a <= b
    ensures |a| <= |b|
  {
    assert b == a + (b - a);
  }

  /** Weakening the configuration never raises the score. */
  lemma ScoreNeverRises(f: Facts, h: Facts)
    requires Weaker(f.graph, h.graph)
    requires f.exposed <= h.exposed && f.reachableSensitive <= h.reachableSensitive
    requires f.criticalPaths ==> h.criticalPaths
    ensures Score(h) <= Score(f)
  {
    SmallerSet(AdminEdges(f.graph), AdminEdges(h.graph));
    SmallerSet(BroadEdges(f.graph), BroadEdges(h.graph));
    SmallerSet(PublicEdges(f.graph), PublicEdges(h.graph));
    SmallerSet(Instances(f), Instances(h));
    SmallerSet(f.reachableSensitive, h.reachableSensitive);
    DeductionsGrow(Tally(f), Tally(h), |PENALTIES|);
  }
}
