/** The merge gate: SAFE, REVIEW or BLOCK, and what SAFE means for the two graphs themselves. */
module Decision {
  import opened Ids
  import opened Graphs
  import opened AttackPaths
  import opened DiffEngine
  import opened Wrappers

  datatype Decision = BLOCK | REVIEW | SAFE

  datatype Policy = Policy(
    blockNewCriticalPaths: bool,
    blockNewSensitiveExposure: bool,
    blockPublicAdminPorts: bool,
    allowPublicHttps: bool,
    minimumSecurityScore: Option<int>)

  const DEFAULT_POLICY := Policy(true, true, false, true, None)

  datatype Violation = CRITICAL_PATHS | SENSITIVE_EXPOSURE | ADMIN_INGRESS | HTTPS_INGRESS | LOW_SCORE

  /** The public ingress facts of every security group, tagged with the group. */
  function IngressFacts(g: Graph): set<(Id, Ingress)> {
    set n, f | n in g.nodes && g.nodes[n].kind == SECURITY_GROUP && f in g.nodes[n].ingress :: (n, f)
  }

  predicate Https(f: Ingress) {
    f.fromPort == 443 && f.toPort == 443 && f.protocol in {"tcp", "6"}
  }

  function Violations(diff: GraphDiff, policy: Policy): seq<Violation> {
    var newIngress := IngressFacts(diff.after.graph) - IngressFacts(diff.before.graph);
    (if diff.NewCriticalPaths() != {} && policy.blockNewCriticalPaths then [CRITICAL_PATHS] else [])
    + (if diff.newlyReachableSensitive != {} && policy.blockNewSensitiveExposure then [SENSITIVE_EXPOSURE] else [])
    + (if policy.blockPublicAdminPorts && (exists f :: f in newIngress && f.1.adminPort) then [ADMIN_INGRESS] else [])
    + (if !policy.allowPublicHttps && (exists f :: f in newIngress && Https(f.1)) then [HTTPS_INGRESS] else [])
    + (if policy.minimumSecurityScore.Some? && diff.after.score < policy.minimumSecurityScore.value
       then [LOW_SCORE] else [])
  }

  function Decide(diff: GraphDiff, policy: Policy): Decision {
    Grade(diff, Violations(diff, policy) != [])
  }

  function Grade(diff: GraphDiff, violated: bool): Decision {
    if violated then BLOCK
    else if !diff.Complete() then REVIEW
    else if diff.newAttackPaths != {} || diff.newlyReachableSensitive != {} || diff.newlyExposed != {}
            || diff.ScoreDelta() < 0 then REVIEW
    else SAFE
  }

  // ---------------------------------------------------------------- graph-level meaning

  ghost predicate Marker(g: Graph, n: Id) {
    n != INTERNET_ID && n in g.nodes && g.nodes[n].kind == SENSITIVE_DATA
  }

  /** What an attacker is after: reachable sensitive markers or, when there are none, reachable instances. */
  ghost predicate Goal(g: Graph, n: Id) {
    if exists m :: Marker(g, m) && Reaches(g, m) then Marker(g, n) && Reaches(g, n)
    else Exposed(g, n) && g.nodes[n].kind == EC2
  }

  /** Every route to a goal of AFTER runs over edges of BEFORE. */
  ghost predicate RoutesKept(before: Graph, after: Graph) {
    forall t, p :: Goal(after, t) && Route(after, p, t) ==> ContainsPath(before, p)
  }

  ghost predicate ExposedKept(before: Graph, after: Graph) {
    forall n :: Exposed(after, n) ==> Exposed(before, n)
  }

  ghost predicate SensitiveKept(before: Graph, after: Graph) {
    forall n :: SensitiveReached(after, n) ==> SensitiveReached(before, n)
  }

  /** AFTER offers the attacker nothing BEFORE did not: no new route to a goal and no new exposure. */
  ghost predicate NothingNew(before: Graph, after: Graph) {
    RoutesKept(before, after) && ExposedKept(before, after) && SensitiveKept(before, after)
  }

  lemma ExposureListed(a: Analysis)
    requires Explored(a.graph, a)
    ensures forall n :: n in a.exposed <==> Exposed(a.graph, n)
    ensures forall n :: n in a.reachableSensitive <==> SensitiveReached(a.graph, n)
  {
  }

  lemma TargetsAreGoals(g: Graph, reachable: set<Id>)
    requires AreDescendants(g, reachable)
    ensures forall n :: n in Targets(g, reachable) <==> Goal(g, n)
  {
    var markers := OfKind(g, reachable, {SENSITIVE_DATA});
    assert forall n :: n in markers <==> Marker(g, n) && Reaches(g, n);
    forall n ensures n in Targets(g, reachable) <==> Goal(g, n) {
      if markers == {} {
        assert n in Targets(g, reachable) <==> Exposed(g, n) && g.nodes[n].kind == EC2;
      } else {
        var m :| m in markers;
      }
    }
  }

  /** Listed paths are routes to goals. */
  lemma ListedAreRoutes(a: Analysis, p: Path)
    requires Explored(a.graph, a) && p in a.attackPaths
    ensures Goal(a.graph, Last(p)) && Route(a.graph, p.nodes, Last(p))
  {
    TargetsAreGoals(a.graph, a.reachable);
    var i :| 0 <= i < |a.attackPaths| && a.attackPaths[i] == p;
    assert SoundPath(a.graph, a.attackPaths[i], Last(a.attackPaths[i]));
  }

  /** Without truncation, every route to a goal is listed. */
  lemma RoutesAreListed(a: Analysis, t: Id, p: seq<Id>)
    requires Explored(a.graph, a) && !a.truncated && Goal(a.graph, t) && Route(a.graph, p, t)
    ensures exists q :: q in a.attackPaths && q.nodes == p
  {
    TargetsAreGoals(a.graph, a.reachable);
    assert Lists(a.attackPaths, p);
    var i :| 0 <= i < |a.attackPaths| && a.attackPaths[i].nodes == p;
    assert a.attackPaths[i] in a.attackPaths;
  }

  lemma NoneOnlyIn(here: Analysis, there: Analysis)
    requires WellFormed(there.graph)
    requires Explored(here.graph, here) && Explored(there.graph, there)
    requires KeysIdentify(here.attackPaths, there.attackPaths)
    ensures OnlyIn(here, there) == {} <==> forall p :: p in here.attackPaths ==> ContainsPath(there.graph, p.nodes)
  {
    OnlyInExactly(here, there);
    var only := OnlyIn(here, there);
    if only != {} { var p :| p in only; }
    forall p | p in here.attackPaths && !ContainsPath(there.graph, p.nodes) ensures only != {} { assert p in only; }
  }

  /** For a complete AFTER, an empty path difference is a statement about all routes of the graph. */
  lemma NoNewPathsMeansNoNewRoutes(before: Analysis, after: Analysis)
    requires WellFormed(before.graph)
    requires Explored(before.graph, before) && Explored(after.graph, after) && !after.truncated
    requires KeysIdentify(after.attackPaths, before.attackPaths)
    ensures OnlyIn(after, before) == {} <==> RoutesKept(before.graph, after.graph)
  {
    NoneOnlyIn(after, before);
    if OnlyIn(after, before) == {} {
      forall t, p | Goal(after.graph, t) && Route(after.graph, p, t) ensures ContainsPath(before.graph, p) {
        RoutesAreListed(after, t, p);
      }
    } else {
      var p :| p in after.attackPaths && !ContainsPath(before.graph, p.nodes);
      ListedAreRoutes(after, p);
    }
  }

  /** Empty exposure differences are statements about reachability in the two graphs. */
  lemma ExposureKept(before: Analysis, after: Analysis)
    requires Explored(before.graph, before) && Explored(after.graph, after)
    ensures after.exposed - before.exposed == {} <==> ExposedKept(before.graph, after.graph)
    ensures after.reachableSensitive - before.reachableSensitive == {} <==> SensitiveKept(before.graph, after.graph)
  {
    ExposureListed(before);
    ExposureListed(after);
    EmptyDifference(after.exposed, before.exposed);
    EmptyDifference(after.reachableSensitive, before.reachableSensitive);
  }

  /**
   * The gate says SAFE exactly when both analyses are complete, AFTER offers the attacker nothing new,
   * the score did not fall and the policy has no objection.
   */
  lemma SafeMeansNothingNew(before: Analysis, after: Analysis, policy: Policy)
    requires WellFormed(before.graph)
    requires Explored(before.graph, before) && Explored(after.graph, after)
    requires KeysIdentify(after.attackPaths, before.attackPaths)
    ensures Decide(Compare(before, after), policy) == SAFE <==>
            && before.Complete() && after.Complete()
            && NothingNew(before.graph, after.graph)
            && before.score <= after.score
            && Violations(Compare(before, after), policy) == []
  {
    SafeGrade(before, after, Violations(Compare(before, after), policy) != []);
  }

  lemma SafeGrade(before: Analysis, after: Analysis, violated: bool)
    requires WellFormed(before.graph)
    requires Explored(before.graph, before) && Explored(after.graph, after)
    requires KeysIdentify(after.attackPaths, before.attackPaths)
    ensures Grade(Compare(before, after), violated) == SAFE <==>
            && before.Complete() && after.Complete()
            && NothingNew(before.graph, after.graph)
            && before.score <= after.score
            && !violated
  {
    ExposureKept(before, after);
    if after.Complete() { NoNewPathsMeansNoNewRoutes(before, after); }
    GradeFromFacts(before, after, violated);
  }

  lemma GradeFromFacts(before: Analysis, after: Analysis, violated: bool)
    requires after.exposed - before.exposed == {} <==> ExposedKept(before.graph, after.graph)
    requires after.reachableSensitive - before.reachableSensitive == {} <==> SensitiveKept(before.graph, after.graph)
    requires after.Complete() ==> (OnlyIn(after, before) == {} <==> RoutesKept(before.graph, after.graph))
    ensures Grade(Compare(before, after), violated) == SAFE <==>
            && before.Complete() && after.Complete()
            && NothingNew(before.graph, after.graph)
            && before.score <= after.score
            && !violated
  {
  }

  lemma EmptyDifference<T>(a: set<T>, b: set<T>)
    ensures a - b == {} <==> forall x :: x in a ==> x in b
  {
    forall x | x in a && x !in b ensures a - b != {} { assert x in a - b; }
    if a - b != {} { var x :| x in a - b; }
  }

  /** Read off for sensitive data: under SAFE, BEFORE already had every route and reached every marker. */
  lemma SafeKeepsSensitiveRoutes(before: Analysis, after: Analysis, policy: Policy, marker: Id)
    requires WellFormed(before.graph)
    requires Explored(before.graph, before) && Explored(after.graph, after)
    requires KeysIdentify(after.attackPaths, before.attackPaths)
    requires Decide(Compare(before, after), policy) == SAFE && Marker(after.graph, marker)
    ensures forall p :: Route(after.graph, p, marker) ==> ContainsPath(before.graph, p)
    ensures Reaches(after.graph, marker) ==> Reaches(before.graph, marker)
  {
    SafeMeansNothingNew(before, after, policy);
    forall p | Route(after.graph, p, marker) ensures ContainsPath(before.graph, p) {
      assert Goal(after.graph, marker);
    }
    if Reaches(after.graph, marker) {
      var p := SomeRoute(after, marker);
      assert WalkTo(before.graph, p, marker);
    }
  }

  /** A complete analysis lists a route to every goal. */
  lemma SomeRoute(a: Analysis, t: Id) returns (p: seq<Id>)
    requires Explored(a.graph, a) && !a.truncated && Goal(a.graph, t)
    ensures Route(a.graph, p, t)
  {
    TargetsAreGoals(a.graph, a.reachable);
    assert ShortestListed(a.graph, a.attackPaths, t);
    var i :| 0 <= i < |a.attackPaths| && Last(a.attackPaths[i]) == t;
    p := a.attackPaths[i].nodes;
    assert SoundPath(a.graph, a.attackPaths[i], t);
  }

  /** SAFE never hides behind an INCOMPLETE or REGRESSION verdict. */
  lemma SafeVerdict(before: Analysis, after: Analysis, policy: Policy)
    requires Decide(Compare(before, after), policy) == SAFE
    ensures Compare(before, after).Verdict() in {IMPROVED, UNCHANGED}
  {
    assert Compare(before, after).NewCriticalPaths() == {};
  }

  /** Under the default policy the gate blocks exactly on new sensitive reach or a new critical path. */
  lemma DefaultPolicyBlocks(before: Analysis, after: Analysis)
    ensures var diff := Compare(before, after);
            Decide(diff, DEFAULT_POLICY) == BLOCK <==>
            ((exists n :: n in after.reachableSensitive && n !in before.reachableSensitive)
             || (exists p :: p in diff.newAttackPaths && p.reachesSensitive))
  {
    var diff := Compare(before, after);
    EmptyDifference(after.reachableSensitive, before.reachableSensitive);
    if p :| p in diff.newAttackPaths && p.reachesSensitive {
      assert p in diff.NewCriticalPaths();
    } else {
      assert diff.NewCriticalPaths() == {};
    }
  }

  /** AFTER has a route through a sensitive marker, to a goal, that BEFORE did not. */
  ghost predicate NewCriticalRoute(before: Graph, after: Graph) {
    exists t, p :: Goal(after, t) && Route(after, p, t) && VisitsMarker(after, p) && !ContainsPath(before, p)
  }

  predicate HasNewCriticalPath(before: Analysis, after: Analysis) {
    exists p :: p in Compare(before, after).newAttackPaths && p.reachesSensitive
  }

  lemma ListedSensitivity(a: Analysis, p: Path)
    requires Explored(a.graph, a) && p in a.attackPaths
    ensures p.reachesSensitive == VisitsMarker(a.graph, p.nodes)
  {
    ListedMeans(a.graph, a, p);
  }

  /** With AFTER fully enumerated, new critical paths are new critical routes of the graphs. */
  lemma NewCriticalPathsAreRoutes(before: Analysis, after: Analysis)
    requires WellFormed(before.graph) && Explored(before.graph, before) && Explored(after.graph, after)
    requires KeysIdentify(after.attackPaths, before.attackPaths) && !after.truncated
    ensures HasNewCriticalPath(before, after) <==> NewCriticalRoute(before.graph, after.graph)
  {
    OnlyInExactly(after, before);
    if HasNewCriticalPath(before, after) {
      var p :| p in Compare(before, after).newAttackPaths && p.reachesSensitive;
      ListedAreRoutes(after, p);
      ListedSensitivity(after, p);
    }
    if NewCriticalRoute(before.graph, after.graph) {
      var t, nodes :| Goal(after.graph, t) && Route(after.graph, nodes, t)
                      && VisitsMarker(after.graph, nodes) && !ContainsPath(before.graph, nodes);
      RoutesAreListed(after, t, nodes);
      var p :| p in after.attackPaths && p.nodes == nodes;
      ListedSensitivity(after, p);
      assert p in Compare(before, after).newAttackPaths;
    }
  }

  lemma NewSensitiveIsListed(before: Analysis, after: Analysis)
    requires Explored(before.graph, before) && Explored(after.graph, after)
    ensures (exists n :: n in after.reachableSensitive && n !in before.reachableSensitive)
       <==> NewSensitiveReach(before.graph, after.graph)
  {
    ExposureListed(before);
    ExposureListed(after);
    hide Explored;
  }

  /** AFTER is worse for sensitive data. */
  ghost predicate Worsened(before: Graph, after: Graph) {
    NewSensitiveReach(before, after) || NewCriticalRoute(before, after)
  }

  /** With AFTER fully enumerated, the default policy blocks exactly when the graphs have worsened. */
  lemma BlocksExactlyOnWorse(before: Analysis, after: Analysis)
    requires WellFormed(before.graph) && Explored(before.graph, before) && Explored(after.graph, after)
    requires KeysIdentify(after.attackPaths, before.attackPaths) && !after.truncated
    ensures Decide(Compare(before, after), DEFAULT_POLICY) == BLOCK <==> Worsened(before.graph, after.graph)
  {
    hide Explored, KeysIdentify, Decide, NewCriticalRoute, NewSensitiveReach;
    DefaultPolicyBlocks(before, after);
    NewCriticalPathsAreRoutes(before, after);
    NewSensitiveIsListed(before, after);
  }

  /** A security group of AFTER admits the internet by a rule of this kind that the same group of BEFORE lacks. */
  ghost predicate NewIngress(before: Graph, after: Graph, admin: bool) {
    exists n, f :: NewRule(before, after, n, f) && (if admin then f.adminPort else OpensHttps(f))
  }

  ghost predicate NewRule(before: Graph, after: Graph, n: Id, f: Ingress) {
    && n in after.nodes && after.nodes[n].kind == SECURITY_GROUP && f in after.nodes[n].ingress
    && !(n in before.nodes && before.nodes[n].kind == SECURITY_GROUP && f in before.nodes[n].ingress)
  }

  /** Port 443 alone, by the protocol's name or number. */
  predicate OpensHttps(f: Ingress) {
    f.fromPort == 443 == f.toPort && (f.protocol == "tcp" || f.protocol == "6")
  }

  /** What each rule of the policy forbids, for the two graphs, the listed routes and the score. */
  ghost predicate Blocked(before: Analysis, after: Analysis, policy: Policy) {
    || (policy.blockNewSensitiveExposure && NewSensitiveReach(before.graph, after.graph))
    || (policy.blockNewCriticalPaths && ListsCriticalBeyond(after, before.graph))
    || (policy.blockPublicAdminPorts && NewIngress(before.graph, after.graph, true))
    || (!policy.allowPublicHttps && NewIngress(before.graph, after.graph, false))
    || (policy.minimumSecurityScore.Some? && after.score < policy.minimumSecurityScore.value)
  }

  lemma IngressMeans(before: Graph, after: Graph, n: Id, f: Ingress)
    ensures (n, f) in IngressFacts(after) - IngressFacts(before) <==> NewRule(before, after, n, f)
  {
  }

  lemma NewIngressMeans(before: Graph, after: Graph)
    ensures var rules := IngressFacts(after) - IngressFacts(before);
      && ((exists f :: f in rules && f.1.adminPort) <==> NewIngress(before, after, true))
      && ((exists f :: f in rules && Https(f.1)) <==> NewIngress(before, after, false))
  {
    var rules := IngressFacts(after) - IngressFacts(before);
    forall n, f ensures (n, f) in rules <==> NewRule(before, after, n, f) {
      IngressMeans(before, after, n, f);
    }
    hide IngressFacts, NewRule;
    if f :| f in rules && f.1.adminPort { assert (f.0, f.1) == f; }
    if f :| f in rules && Https(f.1) { assert (f.0, f.1) == f; }
    if n, f :| NewRule(before, after, n, f) && f.adminPort { assert (n, f) in rules && (n, f).1 == f; }
    if n, f :| NewRule(before, after, n, f) && OpensHttps(f) { assert (n, f) in rules && (n, f).1 == f; }
  }

  /** For every policy, the gate blocks exactly when one of its rules forbids what changed. */
  lemma BlockedMeans(before: Analysis, after: Analysis, policy: Policy)
    requires WellFormed(before.graph) && Explored(before.graph, before) && Explored(after.graph, after)
    requires KeysIdentify(after.attackPaths, before.attackPaths)
    ensures Decide(Compare(before, after), policy) == BLOCK <==> Blocked(before, after, policy)
    ensures Violations(Compare(before, after), policy) != [] <==> Blocked(before, after, policy)
  {
    hide Explored, KeysIdentify, IngressFacts, NewIngress, NewSensitiveReach, ListsCriticalBeyond, Https;
    ChangesMean(before, after);
    NewIngressMeans(before.graph, after.graph);
    CompareKeepsSides(before, after);
    hide Compare, GraphDiff.NewCriticalPaths;
  }

  predicate TooLarge(g: Graph) {
    |g.nodes| > 2500 || |g.edges| > 20_000
  }

  /** What the gate asks of the two graphs and their analyses before it says SAFE. */
  ghost predicate SafeFor(g: Graph, h: Graph, before: Analysis, after: Analysis, policy: Policy) {
    && before.Complete() && after.Complete()
    && NothingNew(g, h)
    && before.score <= after.score
    && !Blocked(before, after, policy)
  }

  /** What the decision says about the two graphs. */
  ghost predicate Justified(d: Decision, g: Graph, h: Graph, before: Analysis, after: Analysis, policy: Policy) {
    && (d == SAFE <==> SafeFor(g, h, before, after, policy))
    && (d == BLOCK <==> Blocked(before, after, policy))
    && (policy == DEFAULT_POLICY && !after.truncated ==> (d == BLOCK <==> Worsened(g, h)))
  }

  /** The gate's promise for analyses of two graphs whose ids are unbroken. */
  lemma DecisionIsJustified(g: Graph, h: Graph, before: Analysis, after: Analysis, policy: Policy)
    requires WellFormed(g) && WellFormed(h) && IsAnalysis(g, before) && IsAnalysis(h, after)
    requires forall id :: id in g.nodes || id in h.nodes ==> Unbroken(id)
    ensures Justified(Decide(Compare(before, after), policy), g, h, before, after, policy)
  {
    hide Violations, Blocked;
    UnbrokenIdsIdentify(after, before);
    SafeMeansNothingNew(before, after, policy);
    BlockedMeans(before, after, policy);
    if policy == DEFAULT_POLICY && !after.truncated {
      BlocksExactlyOnWorse(before, after);
    }
  }

  /** The whole gate, from two graphs to a decision, with its meaning for the graphs. */
  method Gate(before: Graph, after: Graph, policy: Policy) returns (d: Option<Decision>, b: Outcome, a: Outcome)
    requires WellFormed(before) && WellFormed(after)
    requires forall id :: id in before.nodes || id in after.nodes ==> Unbroken(id)
    ensures d.None? <==> TooLarge(before) || TooLarge(after)
    ensures d.Some? ==> b.Analyzed? && a.Analyzed? && IsAnalysis(before, b.result) && IsAnalysis(after, a.result)
    ensures d.Some? ==> Justified(d.value, before, after, b.result, a.result, policy)
  {
    hide IsAnalysis, Decide, Compare, Justified;
    d, a := None, InputLimitError;
    b := Analyze(before);
    if b.InputLimitError? { return; }
    a := Analyze(after);
    if a.InputLimitError? { return; }
    d := Some(Decide(Compare(b.result, a.result), policy));
    DecisionIsJustified(before, after, b.result, a.result, policy);
  }
}
