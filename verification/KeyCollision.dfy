/**
 * What a node id with the key separator inside does to the gate: whatever the names, two configurations whose graphs
 * have complete analyses that compare as SAFE, although AFTER opens a route that BEFORE did not have.
 */
module KeyCollision {
  import opened Ids
  import opened Graphs
  import opened AttackPaths
  import opened DiffEngine
  import opened Decision
  import opened GraphBuilder
  import RiskScore

  /**
   * Two public security groups and three instances. One instance is named so that its address reads like the addresses
   * of the other two around an arrow.
   */
  datatype Site = Site(s: Id, t: Id, b: Id, c: Id, rule: Ingress, risk: Risk) {
    function X(): Id {
      b + SEPARATOR + c
    }

    predicate Apart() {
      Simple([INTERNET_ID, s, t, b, c, X()])
    }

    function Nodes(): map<Id, Node> {
      map[INTERNET_ID := Node(INTERNET, false, {}),
          s := Node(SECURITY_GROUP, false, {rule}), t := Node(SECURITY_GROUP, false, {rule}),
          b := Node(EC2, false, {}), c := Node(EC2, false, {}), X() := Node(EC2, false, {})]
    }

    /** BEFORE: s guards b, b is listed as guarding c, t guards X. AFTER: s guards X as well. */
    function Edges(after: bool): map<Link, Edge> {
      var open, guards := Edge(INGRESS_ALLOWS, risk), Edge(PROTECTS, LOW);
      map[(INTERNET_ID, s) := open, (INTERNET_ID, t) := open, (s, b) := guards, (b, c) := guards, (t, X()) := guards]
      + if after then map[(s, X()) := guards] else map[]
    }

    function Side(after: bool): Graph {
      Graph(Nodes(), Edges(after), [])
    }

    function Resources(): set<Id> {
      {b, c, X()}
    }

    /** Every route of the site. */
    function Routes(after: bool): seq<seq<Id>> {
      [[INTERNET_ID, s, b], [INTERNET_ID, s, b, c], [INTERNET_ID, t, X()]]
      + if after then [[INTERNET_ID, s, X()]] else []
    }
  }

  /** The ids of the site, told apart one by one. */
  lemma IdsDiffer(site: Site)
    requires site.Apart()
    ensures site.s != INTERNET_ID && site.t != INTERNET_ID && site.b != INTERNET_ID && site.c != INTERNET_ID
    ensures site.X() != INTERNET_ID && site.s != site.t && site.s != site.b && site.s != site.c && site.s != site.X()
    ensures site.t != site.b && site.t != site.c && site.t != site.X() && site.b != site.c && site.b != site.X()
    ensures site.c != site.X()
  {
    var l := [INTERNET_ID, site.s, site.t, site.b, site.c, site.X()];
    assert l[0] == INTERNET_ID && l[1] == site.s && l[2] == site.t && l[3] == site.b && l[4] == site.c;
    assert l[5] == site.X();
  }

  /** Where one can go from each node. */
  predicate Leads(site: Site, after: bool, u: Id, v: Id) {
    || (u == INTERNET_ID && (v == site.s || v == site.t))
    || (u == site.s && (v == site.b || (after && v == site.X())))
    || (u == site.t && v == site.X())
    || (u == site.b && v == site.c)
  }

  lemma EdgesLead(site: Site, after: bool, u: Id, v: Id)
    ensures (u, v) in site.Edges(after) <==> Leads(site, after, u, v)
  {
  }

  lemma KindsOfSite(site: Site)
    requires site.Apart()
    ensures var n := site.Nodes();
      && n.Keys == {INTERNET_ID, site.s, site.t} + site.Resources()
      && n[INTERNET_ID].kind == INTERNET && n[site.s].kind == SECURITY_GROUP && n[site.t].kind == SECURITY_GROUP
      && n[site.b].kind == EC2 && n[site.c].kind == EC2 && n[site.X()].kind == EC2
      && forall id :: id in n ==> !n[id].sensitive
  {
    IdsDiffer(site);
  }

  // ---------------------------------------------------------------- the walks of the site

  predicate IsRoute(site: Site, after: bool, p: seq<Id>) {
    || p == [INTERNET_ID, site.s, site.b]
    || p == [INTERNET_ID, site.s, site.b, site.c]
    || p == [INTERNET_ID, site.t, site.X()]
    || (after && p == [INTERNET_ID, site.s, site.X()])
  }

  lemma RoutesAreThese(site: Site, after: bool)
    ensures forall p :: p in site.Routes(after) <==> IsRoute(site, after, p)
  {
    var r := site.Routes(after);
    assert r[0] == [INTERNET_ID, site.s, site.b] && r[1] == [INTERNET_ID, site.s, site.b, site.c];
    assert r[2] == [INTERNET_ID, site.t, site.X()] && (after ==> r[3] == [INTERNET_ID, site.s, site.X()]);
  }

  /** A walk of the site: the internet, a security group, or a route. */
  predicate Known(site: Site, after: bool, p: seq<Id>) {
    p == [INTERNET_ID] || p == [INTERNET_ID, site.s] || p == [INTERNET_ID, site.t] || IsRoute(site, after, p)
  }

  lemma NextStep(site: Site, after: bool, q: seq<Id>, last: Id)
    requires site.Apart() && Known(site, after, q) && Leads(site, after, q[|q| - 1], last)
    ensures Known(site, after, q + [last])
  {
    IdsDiffer(site);
  }

  lemma {:induction false} WalksAreKnown(site: Site, after: bool, p: seq<Id>)
    requires site.Apart() && Walk(site.Side(after), p) && p[0] == INTERNET_ID
    ensures Known(site, after, p)
    decreases |p|
  {
    if |p| == 1 {
      assert p == [INTERNET_ID];
    } else {
      var q, last := p[..|p| - 1], p[|p| - 1];
      forall i | 0 <= i < |q| - 1 ensures (q[i], q[i + 1]) in site.Side(after).edges {
        assert (p[i], p[i + 1]) in site.Side(after).edges;
      }
      WalksAreKnown(site, after, q);
      assert (p[|p| - 2], p[|p| - 1]) in site.Side(after).edges;
      EdgesLead(site, after, p[|p| - 2], last);
      NextStep(site, after, q, last);
      assert p == q + [last];
    }
  }

  lemma KnownAreWalks(site: Site, after: bool, p: seq<Id>)
    requires Known(site, after, p)
    ensures Walk(site.Side(after), p) && p[0] == INTERNET_ID
  {
    forall i | 0 <= i < |p| - 1 ensures (p[i], p[i + 1]) in site.Side(after).edges {
      EdgesLead(site, after, p[i], p[i + 1]);
    }
  }

  lemma KnownAreSimple(site: Site, after: bool, p: seq<Id>)
    requires site.Apart() && Known(site, after, p)
    ensures Simple(p)
  {
    IdsDiffer(site);
  }

  function Reached(site: Site): set<Id> {
    {site.s, site.t} + site.Resources()
  }

  /** A walk to each node but the internet. */
  function WalkFor(site: Site, n: Id): seq<Id> {
    if n == site.s then [INTERNET_ID, site.s]
    else if n == site.t then [INTERNET_ID, site.t]
    else if n == site.b then [INTERNET_ID, site.s, site.b]
    else if n == site.c then [INTERNET_ID, site.s, site.b, site.c]
    else [INTERNET_ID, site.t, site.X()]
  }

  lemma SiteReaches(site: Site, after: bool)
    requires site.Apart()
    ensures AreDescendants(site.Side(after), Reached(site))
  {
    var g := site.Side(after);
    IdsDiffer(site);
    forall n ensures n in Reached(site) <==> n != INTERNET_ID && Reaches(g, n) {
      if n in Reached(site) {
        KnownAreWalks(site, after, WalkFor(site, n));
        assert WalkTo(g, WalkFor(site, n), n);
      }
      if n != INTERNET_ID && Reaches(g, n) {
        var p :| WalkTo(g, p, n);
        WalksAreKnown(site, after, p);
      }
    }
  }

  /** The routes listed for a resource: its walk comes first and no walk to it is shorter. */
  lemma WalkForIsShortest(site: Site, after: bool, n: Id, q: seq<Id>)
    requires site.Apart() && n in site.Resources() && WalkTo(site.Side(after), q, n)
    ensures |WalkFor(site, n)| <= |q| && IsRoute(site, after, WalkFor(site, n)) && IsRoute(site, after, q)
  {
    IdsDiffer(site);
    WalksAreKnown(site, after, q);
  }

  // ---------------------------------------------------------------- the analyses of the site

  function Paths(g: Graph, routes: seq<seq<Id>>): seq<Path>
    requires forall i :: 0 <= i < |routes| ==> Walk(g, routes[i])
  {
    seq(|routes|, i requires 0 <= i < |routes| => BuildAttackPath(g, routes[i]))
  }

  lemma RoutesAreWalks(site: Site, after: bool)
    ensures forall i :: 0 <= i < |site.Routes(after)| ==> Walk(site.Side(after), site.Routes(after)[i])
  {
    RoutesAreThese(site, after);
    forall i | 0 <= i < |site.Routes(after)| ensures Walk(site.Side(after), site.Routes(after)[i]) {
      assert site.Routes(after)[i] in site.Routes(after);
      KnownAreWalks(site, after, site.Routes(after)[i]);
    }
  }

  function Listing(site: Site, after: bool): seq<Path> {
    RoutesAreWalks(site, after);
    Paths(site.Side(after), site.Routes(after))
  }

  lemma ListingHas(site: Site, after: bool, i: nat)
    requires i < |site.Routes(after)|
    ensures |Listing(site, after)| == |site.Routes(after)| <= 4
    ensures var p := Listing(site, after)[i];
      && p.nodes == site.Routes(after)[i] && IsRoute(site, after, p.nodes)
      && Walk(site.Side(after), p.nodes) && p == BuildAttackPath(site.Side(after), p.nodes)
  {
    RoutesAreWalks(site, after);
    RoutesAreThese(site, after);
    assert site.Routes(after)[i] in site.Routes(after);
  }

  /** What the analysis of the site finds. */
  function Found(site: Site, after: bool): Analysis {
    var g, exposed, paths := site.Side(after), site.Resources(), Listing(site, after);
    Analysis(g, Reached(site), exposed, {}, {}, paths, RiskLevel(false, {}, paths, exposed),
             RiskScore.Score(RiskScore.Facts(g, exposed, {}, false)), [], [], false, 0)
  }

  lemma NothingSensitive(site: Site, after: bool)
    requires site.Apart()
    ensures SensitiveResources(site.Side(after)) == {} && !Found(site, after).HasCriticalPath()
    ensures OfKind(site.Side(after), Reached(site), RESOURCE_TYPES) == site.Resources()
    ensures Targets(site.Side(after), Reached(site)) == site.Resources()
  {
    var g := site.Side(after);
    KindsOfSite(site);
    IdsDiffer(site);
    forall p | p in Found(site, after).attackPaths ensures !p.reachesSensitive {
      var i :| 0 <= i < |Listing(site, after)| && Listing(site, after)[i] == p;
      RoutesAreWalks(site, after);
      ListingHas(site, after, i);
    }
    assert OfKind(g, Reached(site), RESOURCE_TYPES) == site.Resources();
    assert OfKind(g, Reached(site), {SENSITIVE_DATA}) == {};
    assert OfKind(g, site.Resources(), {EC2}) == site.Resources();
  }

  lemma {:induction false} CountAtMost(paths: seq<Path>, target: Id)
    ensures CountTo(paths, target) <= |paths|
    decreases |paths|
  {
    if paths != [] {
      CountAtMost(paths[..|paths| - 1], target);
    }
  }

  lemma RouteEnds(site: Site, after: bool, p: seq<Id>)
    requires site.Apart() && IsRoute(site, after, p)
    ensures p[|p| - 1] in site.Resources() && Route(site.Side(after), p, p[|p| - 1]) && |p| <= 4
  {
    KnownAreWalks(site, after, p);
    KnownAreSimple(site, after, p);
  }

  lemma RoutesDiffer(site: Site, after: bool)
    requires site.Apart()
    ensures forall i, j :: 0 <= i < j < |site.Routes(after)| ==> site.Routes(after)[i] != site.Routes(after)[j]
  {
    IdsDiffer(site);
    var r := site.Routes(after);
    assert r[0][|r[0]| - 1] == site.b && r[1][|r[1]| - 1] == site.c && r[2][1] == site.t && r[2][2] == site.X();
    assert after ==> r[3][1] == site.s && r[3][2] == site.X();
  }

  lemma ListingIsListed(site: Site, after: bool)
    requires site.Apart()
    ensures Listed(site.Side(after), site.Resources(), Listing(site, after))
  {
    var paths := Listing(site, after);
    RoutesDiffer(site, after);
    ListingHas(site, after, 0);
    forall i | 0 <= i < |paths|
      ensures Last(paths[i]) in site.Resources() && SoundPath(site.Side(after), paths[i], Last(paths[i]))
    {
      ListingHas(site, after, i);
      RouteEnds(site, after, paths[i].nodes);
    }
    forall i, j | 0 <= i < j < |paths| ensures paths[i].nodes != paths[j].nodes {
      ListingHas(site, after, i);
      ListingHas(site, after, j);
    }
    forall t ensures CountTo(paths, t) <= MAX_PATHS_PER_TARGET {
      CountAtMost(paths, t);
    }
  }

  lemma RouteIsListed(site: Site, after: bool, p: seq<Id>)
    requires IsRoute(site, after, p)
    ensures Lists(Listing(site, after), p)
    ensures exists i :: 0 <= i < |Listing(site, after)| && Listing(site, after)[i].nodes == p
  {
    RoutesAreThese(site, after);
    var i :| 0 <= i < |site.Routes(after)| && site.Routes(after)[i] == p;
    ListingHas(site, after, i);
  }

  lemma WalkForEnds(site: Site, after: bool, t: Id)
    requires site.Apart() && t in site.Resources()
    ensures var w := WalkFor(site, t); IsRoute(site, after, w) && w[|w| - 1] == t
  {
    IdsDiffer(site);
  }

  lemma WalkForIsListed(site: Site, after: bool, t: Id)
    requires site.Apart() && t in site.Resources()
    ensures ShortestListed(site.Side(after), Listing(site, after), t)
  {
    WalkForEnds(site, after, t);
    var w := WalkFor(site, t);
    hide Listing, IsRoute, WalkTo, WalkFor, Site.Side, Site.Apart;
    forall q | WalkTo(site.Side(after), q, t) ensures |w| <= |q| {
      WalkForIsShortest(site, after, t, q);
    }
    RouteIsListed(site, after, w);
    var i :| 0 <= i < |Listing(site, after)| && Listing(site, after)[i].nodes == w;
    assert Last(Listing(site, after)[i]) == t;
  }

  lemma ListingIsExhausted(site: Site, after: bool)
    requires site.Apart()
    ensures Exhausted(site.Side(after), site.Resources(), Listing(site, after))
  {
    var g, paths := site.Side(after), Listing(site, after);
    forall t, p | t in site.Resources() && Route(g, p, t) ensures Lists(paths, p) {
      WalkForIsShortest(site, after, t, p);
      RouteIsListed(site, after, p);
    }
    forall t | t in site.Resources() ensures ShortestListed(g, paths, t) {
      WalkForIsListed(site, after, t);
    }
  }

  /** These are complete analyses of the two graphs. */
  lemma FoundIsAnalysis(site: Site, after: bool)
    requires site.Apart()
    ensures IsAnalysis(site.Side(after), Found(site, after)) && Found(site, after).Complete()
  {
    hide Listed, Exhausted, AreDescendants, RiskScore.Score, RiskLevel, Listing;
    NothingSensitive(site, after);
    SiteReaches(site, after);
    ListingIsListed(site, after);
    ListingIsExhausted(site, after);
    assert {} * Reached(site) == {};
    assert Found(site, after).Facts() == RiskScore.Facts(site.Side(after), site.Resources(), {}, false);
    assert site.Side(after).diagnostics + [] == [];
  }

  // ---------------------------------------------------------------- their comparison

  lemma ScoresAgree(site: Site)
    requires site.Apart()
    ensures Found(site, false).score == Found(site, true).score
  {
    var g, h := site.Side(false), site.Side(true);
    IdsDiffer(site);
    var e := (site.s, site.X());
    assert h.edges == g.edges[e := Edge(PROTECTS, LOW)] && e !in g.edges;
    assert RiskScore.AdminEdges(g) == RiskScore.AdminEdges(h);
    assert RiskScore.BroadEdges(g) == RiskScore.BroadEdges(h);
    assert RiskScore.PublicEdges(g) == RiskScore.PublicEdges(h);
    var f, k := RiskScore.Facts(g, site.Resources(), {}, false), RiskScore.Facts(h, site.Resources(), {}, false);
    assert RiskScore.Instances(f) == RiskScore.Instances(k);
    assert RiskScore.Tally(f) == RiskScore.Tally(k);
  }

  /** The new route reads like one that BEFORE lists. */
  lemma KeysAgree(site: Site)
    ensures Join([INTERNET_ID, site.s, site.X()]) == Join([INTERNET_ID, site.s, site.b, site.c])
  {
    KeysCollide([INTERNET_ID, site.s], site.b, site.c, []);
    assert [INTERNET_ID, site.s] + [site.X()] + [] == [INTERNET_ID, site.s, site.X()];
    assert [INTERNET_ID, site.s] + [site.b, site.c] + [] == [INTERNET_ID, site.s, site.b, site.c];
  }

  lemma KeyIsTaken(site: Site, p: Path)
    requires site.Apart() && p in Listing(site, true)
    ensures ContainsPath(site.Side(false), p.nodes) || Key(p) in ByKey(Listing(site, false))
  {
    var i :| 0 <= i < |Listing(site, true)| && Listing(site, true)[i] == p;
    RoutesAreWalks(site, true);
    ListingHas(site, true, i);
    if p.nodes == [INTERNET_ID, site.s, site.X()] {
      KeysAgree(site);
      RouteIsListed(site, false, [INTERNET_ID, site.s, site.b, site.c]);
      var j :| 0 <= j < |Listing(site, false)|
               && Listing(site, false)[j].nodes == [INTERNET_ID, site.s, site.b, site.c];
      ByKeyHolds(Listing(site, false));
      assert Listing(site, false)[j] in Listing(site, false);
    } else {
      KnownAreWalks(site, false, p.nodes);
    }
  }

  lemma NoNewPath(site: Site)
    requires site.Apart()
    ensures OnlyIn(Found(site, true), Found(site, false)) == {}
  {
    var mine := ByKey(Listing(site, true));
    ByKeyHolds(Listing(site, true));
    forall k | k in mine ensures ContainsPath(site.Side(false), mine[k].nodes) || k in ByKey(Listing(site, false)) {
      KeyIsTaken(site, mine[k]);
    }
    hide ByKey, Listing;
  }

  /** The default gate calls the change SAFE, although AFTER has a route to an instance that BEFORE had not. */
  lemma SafeOverANewRoute(site: Site)
    requires site.Apart()
    ensures IsAnalysis(site.Side(false), Found(site, false)) && IsAnalysis(site.Side(true), Found(site, true))
    ensures Decide(Compare(Found(site, false), Found(site, true)), DEFAULT_POLICY) == SAFE
    ensures !RoutesKept(site.Side(false), site.Side(true))
  {
    FoundIsAnalysis(site, false);
    FoundIsAnalysis(site, true);
    CallsItSafe(site);
    OpensARoute(site);
  }

  lemma CallsItSafe(site: Site)
    requires site.Apart() && Found(site, false).Complete() && Found(site, true).Complete()
    ensures Decide(Compare(Found(site, false), Found(site, true)), DEFAULT_POLICY) == SAFE
  {
    hide Listing, OnlyIn, Explored, RiskScore.Score;
    NoNewPath(site);
    ScoresAgree(site);
    var diff := Compare(Found(site, false), Found(site, true));
    assert diff.newAttackPaths == {} && diff.newlyExposed == {} && diff.newlyReachableSensitive == {};
    assert diff.NewCriticalPaths() == {};
    assert IngressFacts(site.Side(true)) - IngressFacts(site.Side(false)) == {};
    assert Violations(diff, DEFAULT_POLICY) == [];
  }

  lemma OpensARoute(site: Site)
    requires site.Apart()
    ensures !RoutesKept(site.Side(false), site.Side(true))
  {
    var p := [INTERNET_ID, site.s, site.X()];
    RouteEnds(site, true, p);
    SiteReaches(site, true);
    NothingSensitive(site, true);
    TargetsAreGoals(site.Side(true), Reached(site));
    assert Goal(site.Side(true), site.X());
    IdsDiffer(site);
    EdgesLead(site, false, site.s, site.X());
    assert (p[1], p[2]) !in site.Side(false).edges;
    assert !ContainsPath(site.Side(false), p);
  }

  // ---------------------------------------------------------------- the configurations that build these graphs

  /** The names of the five resources; the last instance is named after the addresses of the other two. */
  datatype Names = Names(s: string, t: string, b: string, c: string, rule: Ingress, risk: Risk) {
    function Long(): string {
      b + SEPARATOR + "aws_instance." + c
    }

    function Group(name: string): Resource {
      SecurityGroup(name, [(rule, risk)])
    }

    function Machine(name: string, attached: seq<Id>): Resource {
      Instance(name, attached, [])
    }

    function Layout(): Site {
      Site(Group(s).Address(), Group(t).Address(), Machine(b, []).Address(), Machine(c, []).Address(), rule, risk)
    }

    /** The change adds the first group to the instance with the long name. */
    function Config(after: bool): seq<Resource> {
      [Group(s), Group(t), Machine(b, [Group(s).Address()]), Machine(c, [Machine(b, []).Address()]),
       Machine(Long(), [Group(t).Address()] + if after then [Group(s).Address()] else [])]
    }

    predicate Apart() {
      s != t && b != c
    }
  }

  lemma LongNameCollides(n: Names, attached: seq<Id>)
    ensures n.Machine(n.Long(), attached).Address() == n.Layout().X()
  {
    var id := "aws_instance.";
    assert id + (n.b + SEPARATOR + id + n.c) == (id + n.b) + SEPARATOR + (id + n.c);
  }

  lemma NamesGiveApart(n: Names)
    requires n.Apart()
    ensures n.Layout().Apart()
  {
    var site, group, machine := n.Layout(), "aws_security_group.", "aws_instance.";
    assert site.s[|group|..] == n.s && site.t[|group|..] == n.t;
    assert site.b[|machine|..] == n.b && site.c[|machine|..] == n.c;
    assert site.s[4] == group[4] == 's' && site.t[4] == group[4] == 's' && INTERNET_ID[0] == 'I';
    assert site.b[4] == machine[4] == 'i' && site.c[4] == machine[4] == 'i' && site.X()[4] == machine[4] == 'i';
    assert site.s[0] == 'a' && site.t[0] == 'a' && site.b[0] == 'a' && site.c[0] == 'a' && site.X()[0] == 'a';
    assert |site.X()| > |site.b| && |site.X()| > |site.c|;
  }

  /** The addresses of the configuration, in order. */
  lemma ConfigAddresses(n: Names, after: bool)
    requires n.Apart()
    ensures var rs, site := n.Config(after), n.Layout();
      && |rs| == 5 && rs[0].Address() == site.s && rs[1].Address() == site.t && rs[2].Address() == site.b
      && rs[3].Address() == site.c && rs[4].Address() == site.X()
    ensures var site := n.Layout();
      site.s != site.t && site.b != site.c && site.X() !in {site.s, site.t, site.b, site.c}
      && site.s !in {site.b, site.c} && site.t !in {site.b, site.c}
  {
    LongNameCollides(n, [n.Group(n.t).Address()] + if after then [n.Group(n.s).Address()] else []);
    NamesGiveApart(n);
    IdsDiffer(n.Layout());
  }

  lemma DistinctIsDeclaredOnce(all: seq<Resource>, k: nat)
    requires k < |all| && forall i, j :: 0 <= i < j < |all| ==> all[i].Address() != all[j].Address()
    ensures DeclaredOnce(all, all[k])
  {
  }

  /** Where every address is declared once, preparation changes nothing. */
  lemma {:induction false} DistinctIsPrepared(before: seq<Resource>, rs: seq<Resource>)
    requires var all := before + rs; forall i, j :: 0 <= i < j < |all| ==> all[i].Address() != all[j].Address()
    ensures Prepared(before + rs, rs) == rs
    decreases |rs|
  {
    hide DeclaredOnce, CountAddress;
    if rs != [] {
      var r := rs[0];
      assert before + rs == (before + [r]) + rs[1..];
      DistinctIsPrepared(before + [r], rs[1..]);
      DistinctIsDeclaredOnce(before + rs, |before|);
      CountedOnce(before + rs, r);
    }
  }

  lemma ConfigIsPrepared(n: Names, after: bool)
    requires n.Apart()
    ensures Prepared(n.Config(after), n.Config(after)) == n.Config(after)
  {
    ConfigAddresses(n, after);
    assert [] + n.Config(after) == n.Config(after);
    DistinctIsPrepared([], n.Config(after));
  }

  lemma ConfigNodes(n: Names, after: bool)
    requires n.Apart()
    ensures PlacedNodes(n.Config(after)) == n.Layout().Nodes()
  {
    ConfigAddresses(n, after);
    var rs := n.Config(after);
    assert rs[..5] == rs && rs[..4][..3] == rs[..3] && rs[..3][..2] == rs[..2] && rs[..2][..1] == rs[..1];
    assert rs[..1][..0] == [];
    GroupNode(n, n.s);
    GroupNode(n, n.t);
    assert PlacedNodes(rs[..1]) == WithResource(PlacedNodes([]), rs[0]);
    assert PlacedNodes(rs[..2]) == WithResource(PlacedNodes(rs[..1]), rs[1]);
    assert PlacedNodes(rs[..3]) == WithResource(PlacedNodes(rs[..2]), rs[2]);
    assert PlacedNodes(rs[..4]) == WithResource(PlacedNodes(rs[..3]), rs[3]);
    assert PlacedNodes(rs) == WithResource(PlacedNodes(rs[..4]), rs[4]);
  }

  lemma GroupNode(n: Names, name: string)
    ensures n.Group(name).AsNode() == Node(SECURITY_GROUP, false, {n.rule})
  {
    assert n.Group(name).ingress[0].0 == n.rule;
  }

  function Linked(cs: seq<Candidate>): map<Link, Edge> {
    if cs == [] then map[] else Linked(cs[..|cs| - 1])[cs[|cs| - 1].link := cs[|cs| - 1].edge]
  }

  /** Candidates for links all different are all kept. */
  lemma {:induction false} DistinctLinksAreKept(cs: seq<Candidate>)
    requires |cs| <= MAX_EDGES && forall i, j :: 0 <= i < j < |cs| ==> cs[i].link != cs[j].link
    ensures InsertAll(Wiring(map[], false), cs) == Wiring(Linked(cs), false)
    ensures |Linked(cs)| <= |cs| && forall l :: l in Linked(cs) ==> exists i :: 0 <= i < |cs| && cs[i].link == l
  {
    if cs != [] {
      var before, last := cs[..|cs| - 1], cs[|cs| - 1];
      DistinctLinksAreKept(before);
      var w := InsertAll(Wiring(map[], false), before);
      assert last.link !in w.edges;
      assert Linked(cs).Keys == w.edges.Keys + {last.link};
      forall l | l in Linked(cs) ensures exists i :: 0 <= i < |cs| && cs[i].link == l {
        if l == last.link {
          assert cs[|cs| - 1].link == l;
        } else {
          var i :| 0 <= i < |before| && before[i].link == l;
          assert cs[i].link == l;
        }
      }
    }
  }

  lemma FlatMapOfFive(f: Resource -> seq<Candidate>, rs: seq<Resource>)
    requires |rs| == 5
    ensures FlatMap(rs, f) == f(rs[0]) + f(rs[1]) + f(rs[2]) + f(rs[3]) + f(rs[4])
  {
    assert FlatMap(rs[4..], f) == f(rs[4]);
    assert FlatMap(rs[3..], f) == f(rs[3]) + FlatMap(rs[4..], f);
    assert FlatMap(rs[2..], f) == f(rs[2]) + FlatMap(rs[3..], f);
    assert FlatMap(rs[1..], f) == f(rs[1]) + FlatMap(rs[2..], f);
  }

  function Wires(site: Site, after: bool): seq<Candidate> {
    var open, guards := Edge(INGRESS_ALLOWS, site.risk), Edge(PROTECTS, LOW);
    [Candidate((INTERNET_ID, site.s), open), Candidate((INTERNET_ID, site.t), open),
     Candidate((site.s, site.b), guards), Candidate((site.b, site.c), guards), Candidate((site.t, site.X()), guards)]
    + if after then [Candidate((site.s, site.X()), guards)] else []
  }

  lemma GroupWire(n: Names, name: string)
    ensures IngressEdges(n.Group(name))
         == [Candidate((INTERNET_ID, n.Group(name).Address()), Edge(INGRESS_ALLOWS, n.risk))]
  {
  }

  lemma MachineWires(nodes: map<Id, Node>, n: Names, name: string, refs: seq<Id>)
    requires forall r :: r in refs ==> r in nodes
    ensures var m := n.Machine(name, refs);
      InstanceEdges(nodes, m)
        == seq(|refs|, i requires 0 <= i < |refs| => Candidate((refs[i], m.Address()), Edge(PROTECTS, LOW)))
  {
    var m := n.Machine(name, refs);
    AllPresent(nodes, refs, source => (source, m.Address()), Edge(PROTECTS, LOW));
    assert PresentEdges(nodes, m.roles, role => (m.Address(), role), Edge(ASSUMES_ROLE, MEDIUM)) == [];
  }

  lemma {:induction false} AllPresent(nodes: map<Id, Node>, refs: seq<Id>, link: Id -> Link, edge: Edge)
    requires forall r :: r in refs ==> r in nodes
    ensures PresentEdges(nodes, refs, link, edge)
         == seq(|refs|, i requires 0 <= i < |refs| => Candidate(link(refs[i]), edge))
  {
    if refs != [] {
      AllPresent(nodes, refs[1..], link, edge);
    }
  }

  lemma ConfigWires(n: Names, after: bool)
    requires n.Apart()
    ensures AllCandidates(n.Layout().Nodes(), n.Config(after)) == Wires(n.Layout(), after)
  {
    var nodes, rs, site := n.Layout().Nodes(), n.Config(after), n.Layout();
    ConfigAddresses(n, after);
    var instanceEdges := (r: Resource) => InstanceEdges(nodes, r);
    var roleEdges := (r: Resource) => RoleEdges(rs, r);
    FlatMapOfFive(IngressEdges, rs);
    FlatMapOfFive(instanceEdges, rs);
    FlatMapOfFive(roleEdges, rs);
    FlatMapOfFive(PublicEdges, rs);
    FlatMapOfFive(SensitiveEdges, rs);
    GroupWire(n, n.s);
    GroupWire(n, n.t);
    MachineWires(nodes, n, n.b, rs[2].attached);
    MachineWires(nodes, n, n.c, rs[3].attached);
    MachineWires(nodes, n, n.Long(), rs[4].attached);
    hide InstanceEdges, RoleEdges, IngressEdges, PublicEdges, SensitiveEdges;
  }

  lemma LinkedStep(cs: seq<Candidate>, c: Candidate)
    ensures Linked(cs + [c]) == Linked(cs)[c.link := c.edge]
  {
    assert (cs + [c])[..|cs|] == cs;
  }

  lemma WiresDiffer(site: Site, after: bool)
    requires site.Apart()
    ensures var cs := Wires(site, after); forall i, j :: 0 <= i < j < |cs| ==> cs[i].link != cs[j].link
  {
    IdsDiffer(site);
  }

  lemma WiresAreEdges(site: Site, after: bool)
    requires site.Apart()
    ensures InsertAll(Wiring(map[], false), Wires(site, after)) == Wiring(site.Edges(after), false)
  {
    WiresDiffer(site, after);
    DistinctLinksAreKept(Wires(site, after));
    WiresInOrder(site, after);
    hide Wires, InsertAll, Linked;
  }

  lemma WiresInOrder(site: Site, after: bool)
    ensures Linked(Wires(site, after)) == site.Edges(after)
  {
    var cs := Wires(site, after);
    var a, b, c, d, e := [cs[0]], [cs[1]], [cs[2]], [cs[3]], [cs[4]];
    assert Linked([]) == map[];
    assert cs == [] + a + b + c + d + e + if after then [cs[5]] else [];
    hide Linked;
    LinkedStep([], cs[0]);
    LinkedStep([] + a, cs[1]);
    LinkedStep([] + a + b, cs[2]);
    LinkedStep([] + a + b + c, cs[3]);
    LinkedStep([] + a + b + c + d, cs[4]);
    if after {
      LinkedStep([] + a + b + c + d + e, cs[5]);
    } else {
      assert cs == [] + a + b + c + d + e;
    }
  }

  /** The two graphs are what the builder makes of these configurations. */
  lemma ConfigsBuildTheSite(n: Names, after: bool)
    requires n.Apart()
    ensures BuiltGraph(n.Config(after), []) == n.Layout().Side(after)
    ensures |n.Config(after)| <= MAX_RESOURCES && forall r :: r in n.Config(after) ==> r.RefsOk()
  {
    ConfigIsPrepared(n, after);
    ConfigNodes(n, after);
    ConfigWires(n, after);
    NamesGiveApart(n);
    WiresAreEdges(n.Layout(), after);
    ConfigRefs(n, after);
    hide Names.Config, Names.Layout, Site.Nodes, Site.Edges, Prepared, PlacedNodes, AllCandidates, InsertAll;
  }

  lemma ConfigRefs(n: Names, after: bool)
    ensures forall r :: r in n.Config(after) ==> r.RefsOk()
  {
    assert forall name :: "aws_" <= n.Group(name).Address() && "aws_" <= n.Machine(name, []).Address() by {
      assert "aws_security_group."[..4] == "aws_" && "aws_instance."[..4] == "aws_";
    }
  }

  /**
   * For all names of two security groups and two instances, which the parsers do not restrict: a configuration whose
   * third instance is named after both, and a change that puts it into another security group. The default gate calls
   * the change SAFE, although it opens a route to that instance.
   */
  lemma SafeDespiteANewRoute(n: Names) returns (before: Analysis, after: Analysis)
    requires n.Apart()
    ensures IsAnalysis(BuiltGraph(n.Config(false), []), before) && IsAnalysis(BuiltGraph(n.Config(true), []), after)
    ensures before.Complete() && after.Complete()
    ensures Decide(Compare(before, after), DEFAULT_POLICY) == SAFE
    ensures !RoutesKept(BuiltGraph(n.Config(false), []), BuiltGraph(n.Config(true), []))
  {
    NamesGiveApart(n);
    ConfigsBuildTheSite(n, false);
    ConfigsBuildTheSite(n, true);
    FoundIsAnalysis(n.Layout(), false);
    FoundIsAnalysis(n.Layout(), true);
    hide *;
    SafeOverANewRoute(n.Layout());
    before, after := Found(n.Layout(), false), Found(n.Layout(), true);
  }
}
