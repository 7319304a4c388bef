/** From modelled resources to the attack graph: node placement, edge insertion and the shape they guarantee. */
module GraphBuilder {
  import opened Ids
  import opened Graphs
  import opened AttackPaths
  import RiskScore

  const MAX_RESOURCES := 1000
  const MAX_EDGES := 20_000

  /** One IAM grant of a role: the buckets it names, or all of them. */
  datatype Grant = Grant(allBuckets: bool, buckets: set<Id>, risk: Risk)

  /** A resource with the findings the security rules produced for it. */
  datatype Resource =
    | SecurityGroup(name: string, ingress: seq<(Ingress, Risk)>)
    | Instance(name: string, attached: seq<Id>, roles: seq<Id>)
    | Role(name: string, grants: seq<Grant>)
    | Bucket(name: string, sensitive: bool, publicRisks: seq<Risk>)
  {
    function Address(): Id {
      match this
      case SecurityGroup(_, _) => "aws_security_group." + name
      case Instance(_, _, _) => "aws_instance." + name
      case Role(_, _) => "aws_iam_role." + name
      case Bucket(_, _, _) => "aws_s3_bucket." + name
    }

    function AsNode(): Node {
      match this
      case SecurityGroup(_, rules) => Node(SECURITY_GROUP, false, set i | 0 <= i < |rules| :: rules[i].0)
      case Instance(_, _, _) => Node(EC2, false, {})
      case Role(_, _) => Node(IAM_ROLE, false, {})
      case Bucket(_, _, _) => Node(S3_BUCKET, sensitive, {})
    }

    /** What the rules promise about the addresses they return. */
    predicate RefsOk() {
      Instance? ==> (forall r :: r in attached ==> "aws_" <= r) && (forall r :: r in roles ==> "aws_iam_role." <= r)
    }
  }

  function MarkerId(bucket: string): Id {
    "sensitive_data." + bucket
  }

  const MARKER_NODE := Node(SENSITIVE_DATA, true, {})

  function CountAddress(rs: seq<Resource>, address: Id): nat {
    if rs == [] then 0 else (if rs[0].Address() == address then 1 else 0) + CountAddress(rs[1..], address)
  }

  /** Resources whose address is declared once in the whole configuration; duplicates are dropped entirely. */
  function Prepared(all: seq<Resource>, rs: seq<Resource>): seq<Resource> {
    if rs == [] then []
    else (if CountAddress(all, rs[0].Address()) == 1 then [rs[0]] else []) + Prepared(all, rs[1..])
  }

  // ---------------------------------------------------------------- edge insertion

  datatype Candidate = Candidate(link: Link, edge: Edge)

  datatype Wiring = Wiring(edges: map<Link, Edge>, limitReached: bool)

  /** One insertion: an existing edge yields only to a strictly higher risk, and a full graph takes no new edge. */
  function Insert(w: Wiring, c: Candidate): Wiring {
    if c.link in w.edges then
      if w.edges[c.link].risk.Rank() >= c.edge.risk.Rank() then w else w.(edges := w.edges[c.link := c.edge])
    else if |w.edges| >= MAX_EDGES then w.(limitReached := true)
    else w.(edges := w.edges[c.link := c.edge])
  }

  function InsertAll(w: Wiring, cs: seq<Candidate>): Wiring {
    if cs == [] then w else Insert(InsertAll(w, cs[..|cs| - 1]), cs[|cs| - 1])
  }

  /** The first candidate of highest risk for a link, if any. */
  function Strongest(cs: seq<Candidate>, link: Link): seq<Edge> {
    if cs == [] then [] else
      var best, last := Strongest(cs[..|cs| - 1], link), cs[|cs| - 1];
      if last.link != link || (best != [] && best[0].risk.Rank() >= last.edge.risk.Rank()) then best else [last.edge]
  }

  lemma {:induction false} StrongestIsHighest(cs: seq<Candidate>, link: Link)
    ensures |Strongest(cs, link)| <= 1
    ensures Strongest(cs, link) == [] <==> forall c :: c in cs ==> c.link != link
    ensures Strongest(cs, link) != [] ==> Candidate(link, Strongest(cs, link)[0]) in cs
    ensures forall c :: c in cs && c.link == link && Strongest(cs, link) != [] ==>
              c.edge.risk.Rank() <= Strongest(cs, link)[0].risk.Rank()
  {
    if cs != [] {
      StrongestIsHighest(cs[..|cs| - 1], link);
      assert cs == cs[..|cs| - 1] + [cs[|cs| - 1]];
    }
  }

  /** Until the limit is met, the graph holds for every link exactly the strongest candidate, after any insertions. */
  lemma {:induction false} InsertKeepsStrongest(cs: seq<Candidate>)
    ensures var w := InsertAll(Wiring(map[], false), cs);
            && |w.edges| <= MAX_EDGES
            && (!w.limitReached ==> forall l :: (l in w.edges <==> Strongest(cs, l) != [])
                                                && (l in w.edges ==> [w.edges[l]] == Strongest(cs, l)))
  {
    if cs != [] {
      var prefix, last := cs[..|cs| - 1], cs[|cs| - 1];
      InsertKeepsStrongest(prefix);
      var w := InsertAll(Wiring(map[], false), prefix);
      StrongestIsHighest(prefix, last.link);
      if last.link !in w.edges && |w.edges| < MAX_EDGES {
        assert w.edges[last.link := last.edge].Keys == w.edges.Keys + {last.link};
      } else if last.link in w.edges {
        assert w.edges[last.link := last.edge].Keys == w.edges.Keys;
      }
    }
  }

  lemma {:induction false} InsertedCameFromCandidates(cs: seq<Candidate>, l: Link)
    requires l in InsertAll(Wiring(map[], false), cs).edges
    ensures Candidate(l, InsertAll(Wiring(map[], false), cs).edges[l]) in cs
  {
    var prefix, last := cs[..|cs| - 1], cs[|cs| - 1];
    assert cs == prefix + [last];
    if l in InsertAll(Wiring(map[], false), prefix).edges { InsertedCameFromCandidates(prefix, l); }
  }

  // ---------------------------------------------------------------- candidate edges

  function FlatMap<T>(rs: seq<T>, f: T -> seq<Candidate>): seq<Candidate> {
    if rs == [] then [] else f(rs[0]) + FlatMap(rs[1..], f)
  }

  lemma {:induction false} FromFlatMap<T>(rs: seq<T>, f: T -> seq<Candidate>, c: Candidate)
    requires c in FlatMap(rs, f)
    ensures exists r :: r in rs && c in f(r)
  {
    if c !in f(rs[0]) {
      FromFlatMap(rs[1..], f, c);
      var r :| r in rs[1..] && c in f(r);
      assert r in rs;
    }
  }

  function IngressEdges(r: Resource): seq<Candidate> {
    if r.SecurityGroup? then
      seq(|r.ingress|, i requires 0 <= i < |r.ingress| =>
        Candidate((INTERNET_ID, r.Address()), Edge(INGRESS_ALLOWS, r.ingress[i].1)))
    else []
  }

  function PresentEdges(nodes: map<Id, Node>, refs: seq<Id>, link: Id -> Link, edge: Edge): seq<Candidate> {
    if refs == [] then []
    else
      (if refs[0] in nodes then [Candidate(link(refs[0]), edge)] else [])
      + PresentEdges(nodes, refs[1..], link, edge)
  }

  function InstanceEdges(nodes: map<Id, Node>, r: Resource): seq<Candidate> {
    if r.Instance? then
      PresentEdges(nodes, r.attached, source => (source, r.Address()), Edge(PROTECTS, LOW))
      + PresentEdges(nodes, r.roles, role => (r.Address(), role), Edge(ASSUMES_ROLE, MEDIUM))
    else []
  }

  function GrantEdges(rs: seq<Resource>, role: Id, grant: Grant): seq<Candidate> {
    FlatMap(rs, (b: Resource) =>
      if b.Bucket? && (grant.allBuckets || b.Address() in grant.buckets)
      then [Candidate((role, b.Address()), Edge(CAN_ACCESS, grant.risk))] else [])
  }

  function RoleEdges(rs: seq<Resource>, r: Resource): seq<Candidate> {
    if r.Role? then FlatMap(r.grants, grant => GrantEdges(rs, r.Address(), grant)) else []
  }

  function PublicEdges(r: Resource): seq<Candidate> {
    if r.Bucket? then
      seq(|r.publicRisks|, i requires 0 <= i < |r.publicRisks| =>
        Candidate((INTERNET_ID, r.Address()), Edge(PUBLIC_ACCESS, r.publicRisks[i])))
    else []
  }

  function SensitiveEdges(r: Resource): seq<Candidate> {
    if r.Bucket? && r.sensitive then [Candidate((r.Address(), MarkerId(r.name)), Edge(CONTAINS, HIGH))] else []
  }

  function AllCandidates(nodes: map<Id, Node>, rs: seq<Resource>): seq<Candidate> {
    FlatMap(rs, IngressEdges)
    + FlatMap(rs, (r: Resource) => InstanceEdges(nodes, r))
    + FlatMap(rs, (r: Resource) => RoleEdges(rs, r))
    + FlatMap(rs, PublicEdges)
    + FlatMap(rs, SensitiveEdges)
  }

  // ---------------------------------------------------------------- shape

  /** The one relationship an edge between two kinds of node can have. */
  predicate Fits(source: Node, relationship: Relationship, target: Node) {
    match target.kind
    case INTERNET => false
    case SECURITY_GROUP => source.kind == INTERNET && relationship == INGRESS_ALLOWS
    case EC2 => source.kind !in {INTERNET, SENSITIVE_DATA} && relationship == PROTECTS
    case IAM_ROLE => source.kind == EC2 && relationship == ASSUMES_ROLE
    case S3_BUCKET => relationship == (if source.kind == INTERNET then PUBLIC_ACCESS else CAN_ACCESS)
                      && source.kind in {INTERNET, IAM_ROLE}
    case SENSITIVE_DATA => source.kind == S3_BUCKET && source.sensitive && relationship == CONTAINS
  }

  predicate Shaped(g: Graph) {
    && WellFormed(g)
    && (forall n :: n in g.nodes ==> (g.nodes[n].kind == INTERNET <==> n == INTERNET_ID))
    && (forall e :: e in g.edges ==> Fits(g.nodes[e.0], g.edges[e].relationship, g.nodes[e.1]))
  }

  function KindOf(id: Id): NodeType {
    if "aws_security_group." <= id then SECURITY_GROUP
    else if "aws_instance." <= id then EC2
    else if "aws_iam_role." <= id then IAM_ROLE
    else if "aws_s3_bucket." <= id then S3_BUCKET
    else if "sensitive_data." <= id then SENSITIVE_DATA
    else INTERNET
  }

  /** Every node has the kind its id spells, and every resource (and marker) is in place. */
  ghost predicate Placed(nodes: map<Id, Node>, rs: seq<Resource>) {
    INTERNET_ID in nodes && KindsSpelled(nodes) && forall r :: r in rs ==> InPlace(nodes, r)
  }

  ghost predicate KindsSpelled(nodes: map<Id, Node>) {
    forall n :: n in nodes ==> nodes[n].kind == KindOf(n) && (KindOf(n) == INTERNET ==> n == INTERNET_ID)
  }

  ghost predicate InPlace(nodes: map<Id, Node>, r: Resource) {
    && r.Address() in nodes && nodes[r.Address()] == r.AsNode()
    && (r.Bucket? && r.sensitive ==> MarkerId(r.name) in nodes)
  }

  lemma AddressKinds(r: Resource)
    ensures KindOf(r.Address()) == r.AsNode().kind
    ensures KindOf(MarkerId(r.name)) == SENSITIVE_DATA
    ensures KindOf(INTERNET_ID) == INTERNET
  {
    var a := r.Address();
    assert a[4] == if r.SecurityGroup? || r.Bucket? then 's' else 'i';
    assert a[5] == if r.SecurityGroup? then 'e' else if r.Instance? then 'n' else if r.Role? then 'a' else '3';
    assert MarkerId(r.name)[0] == 's' && INTERNET_ID[0] == 'I';
    assert "aws_security_group."[4] == 's' && "aws_security_group."[5] == 'e' && "aws_security_group."[0] == 'a';
    assert "aws_instance."[4] == 'i' && "aws_instance."[5] == 'n' && "aws_instance."[0] == 'a';
    assert "aws_iam_role."[4] == 'i' && "aws_iam_role."[5] == 'a' && "aws_iam_role."[0] == 'a';
    assert "aws_s3_bucket."[4] == 's' && "aws_s3_bucket."[5] == '3' && "aws_s3_bucket."[0] == 'a';
    assert "sensitive_data."[0] == 's';
  }

  lemma {:induction false} FromPresentEdges(nodes: map<Id, Node>, refs: seq<Id>, link: Id -> Link, edge: Edge,
                                            c: Candidate)
    requires c in PresentEdges(nodes, refs, link, edge)
    ensures exists r :: r in refs && r in nodes && c == Candidate(link(r), edge)
  {
    if refs[0] !in nodes || c != Candidate(link(refs[0]), edge) {
      FromPresentEdges(nodes, refs[1..], link, edge, c);
      var r :| r in refs[1..] && r in nodes && c == Candidate(link(r), edge);
      assert r in refs;
    }
  }

  ghost predicate CandidateFits(nodes: map<Id, Node>, c: Candidate) {
    c.link.0 in nodes && c.link.1 in nodes && Fits(nodes[c.link.0], c.edge.relationship, nodes[c.link.1])
  }

  lemma IngressFits(nodes: map<Id, Node>, rs: seq<Resource>, r: Resource, c: Candidate)
    requires Placed(nodes, rs) && r in rs && (c in IngressEdges(r) || c in PublicEdges(r) || c in SensitiveEdges(r))
    ensures CandidateFits(nodes, c)
  {
    AddressKinds(r);
  }

  lemma PrefixKinds(id: Id)
    ensures "aws_iam_role." <= id ==> KindOf(id) == IAM_ROLE
    ensures "aws_" <= id ==> KindOf(id) != SENSITIVE_DATA && id != INTERNET_ID
  {
    if "aws_iam_role." <= id {
      assert id[4] == "aws_iam_role."[4] == 'i' && id[5] == "aws_iam_role."[5] == 'a';
      assert "aws_security_group."[4] == 's' && "aws_instance."[5] == 'n';
    }
    if "aws_" <= id {
      assert id[0] == "aws_"[0] == 'a' && "sensitive_data."[0] == 's' && INTERNET_ID[0] == 'I';
    }
  }

  lemma InstanceFits(nodes: map<Id, Node>, rs: seq<Resource>, r: Resource, c: Candidate)
    requires Placed(nodes, rs) && r in rs && r.RefsOk() && c in InstanceEdges(nodes, r)
    ensures CandidateFits(nodes, c)
  {
    AddressKinds(r);
    if c in PresentEdges(nodes, r.attached, source => (source, r.Address()), Edge(PROTECTS, LOW)) {
      FromPresentEdges(nodes, r.attached, source => (source, r.Address()), Edge(PROTECTS, LOW), c);
      PrefixKinds(c.link.0);
    } else {
      FromPresentEdges(nodes, r.roles, role => (r.Address(), role), Edge(ASSUMES_ROLE, MEDIUM), c);
      PrefixKinds(c.link.1);
    }
  }

  lemma RoleFits(nodes: map<Id, Node>, rs: seq<Resource>, r: Resource, c: Candidate)
    requires Placed(nodes, rs) && r in rs && c in RoleEdges(rs, r)
    ensures CandidateFits(nodes, c)
  {
    FromFlatMap(r.grants, grant => GrantEdges(rs, r.Address(), grant), c);
    var grant :| grant in r.grants && c in GrantEdges(rs, r.Address(), grant);
    var f := (b: Resource) =>
      if b.Bucket? && (grant.allBuckets || b.Address() in grant.buckets)
      then [Candidate((r.Address(), b.Address()), Edge(CAN_ACCESS, grant.risk))] else [];
    FromFlatMap(rs, f, c);
    var b :| b in rs && c in f(b);
    AddressKinds(r);
    AddressKinds(b);
  }

  lemma CandidatesFit(nodes: map<Id, Node>, rs: seq<Resource>, c: Candidate)
    requires Placed(nodes, rs) && (forall r :: r in rs ==> r.RefsOk()) && c in AllCandidates(nodes, rs)
    ensures CandidateFits(nodes, c)
  {
    var instanceEdges := (r: Resource) => InstanceEdges(nodes, r);
    var roleEdges := (r: Resource) => RoleEdges(rs, r);
    if c in FlatMap(rs, IngressEdges) {
      FromFlatMap(rs, IngressEdges, c);
      var r :| r in rs && c in IngressEdges(r);
      IngressFits(nodes, rs, r, c);
    } else if c in FlatMap(rs, instanceEdges) {
      FromFlatMap(rs, instanceEdges, c);
      var r :| r in rs && c in instanceEdges(r);
      InstanceFits(nodes, rs, r, c);
    } else if c in FlatMap(rs, roleEdges) {
      FromFlatMap(rs, roleEdges, c);
      var r :| r in rs && c in roleEdges(r);
      RoleFits(nodes, rs, r, c);
    } else if c in FlatMap(rs, PublicEdges) {
      FromFlatMap(rs, PublicEdges, c);
      var r :| r in rs && c in PublicEdges(r);
      IngressFits(nodes, rs, r, c);
    } else {
      FromFlatMap(rs, SensitiveEdges, c);
      var r :| r in rs && c in SensitiveEdges(r);
      IngressFits(nodes, rs, r, c);
    }
  }

  lemma {:induction false} CountPositive(rs: seq<Resource>, r: Resource)
    requires r in rs
    ensures CountAddress(rs, r.Address()) >= 1
  {
    if rs[0] != r { CountPositive(rs[1..], r); }
  }

  /** Preparation leaves only declared resources, each address once. */
  lemma {:induction false} PreparedIsUnique(all: seq<Resource>, rs: seq<Resource>)
    requires forall a :: CountAddress(rs, a) <= CountAddress(all, a)
    ensures |Prepared(all, rs)| <= |rs|
    ensures forall r :: r in Prepared(all, rs) ==> r in rs
    ensures var p := Prepared(all, rs); forall i, j :: 0 <= i < j < |p| ==> p[i].Address() != p[j].Address()
  {
    if rs != [] {
      forall a ensures CountAddress(rs[1..], a) <= CountAddress(all, a) {
        assert CountAddress(rs[1..], a) <= CountAddress(rs, a);
      }
      PreparedIsUnique(all, rs[1..]);
      if CountAddress(all, rs[0].Address()) == 1 {
        forall r | r in Prepared(all, rs[1..]) ensures r.Address() != rs[0].Address() {
          CountPositive(rs[1..], r);
        }
      }
    }
  }

  /** The resource is declared, and nothing else has its address. */
  ghost predicate DeclaredOnce(rs: seq<Resource>, r: Resource) {
    exists i :: 0 <= i < |rs| && rs[i] == r && forall j :: 0 <= j < |rs| && j != i ==> rs[j].Address() != r.Address()
  }

  lemma {:induction false} AbsentIsUncounted(rs: seq<Resource>, a: Id)
    requires forall r :: r in rs ==> r.Address() != a
    ensures CountAddress(rs, a) == 0
  {
    if rs != [] {
      AbsentIsUncounted(rs[1..], a);
    }
  }

  lemma {:induction false} CountOfParts(a: seq<Resource>, b: seq<Resource>, id: Id)
    ensures CountAddress(a + b, id) == CountAddress(a, id) + CountAddress(b, id)
  {
    if a == [] {
      assert a + b == b;
    } else {
      assert (a + b)[1..] == a[1..] + b;
      CountOfParts(a[1..], b, id);
    }
  }

  lemma SameAddressTwice(rs: seq<Resource>, a: nat, b: nat)
    requires a < b < |rs| && rs[a].Address() == rs[b].Address()
    ensures CountAddress(rs, rs[a].Address()) >= 2
  {
    assert rs == rs[..b] + rs[b..] && rs[..b][a] == rs[a] && rs[b..][0] == rs[b];
    CountOfParts(rs[..b], rs[b..], rs[a].Address());
    CountPositive(rs[..b], rs[a]);
    CountPositive(rs[b..], rs[b]);
  }

  lemma Declared(rs: seq<Resource>, r: Resource)
    requires CountAddress(rs, r.Address()) == 1 && r in rs
    ensures DeclaredOnce(rs, r)
  {
    var i :| 0 <= i < |rs| && rs[i] == r;
    forall j | 0 <= j < |rs| && j != i ensures rs[j].Address() != r.Address() {
      if rs[j].Address() == r.Address() {
        SameAddressTwice(rs, if i < j then i else j, if i < j then j else i);
      }
    }
  }

  lemma CountedOnce(rs: seq<Resource>, r: Resource)
    requires DeclaredOnce(rs, r)
    ensures CountAddress(rs, r.Address()) == 1
  {
    var i :| 0 <= i < |rs| && rs[i] == r && forall j :: 0 <= j < |rs| && j != i ==> rs[j].Address() != r.Address();
    var before, after := rs[..i], rs[i + 1..];
    assert rs == before + [r] + after;
    forall q | q in before ensures q.Address() != r.Address() {
      var j :| 0 <= j < |before| && before[j] == q;
      assert rs[j] == q;
    }
    forall q | q in after ensures q.Address() != r.Address() {
      var j :| 0 <= j < |after| && after[j] == q;
      assert rs[i + 1 + j] == q;
    }
    AbsentIsUncounted(before, r.Address());
    AbsentIsUncounted(after, r.Address());
    assert [r][1..] == [];
    CountOfParts(before, [r], r.Address());
    CountOfParts(before + [r], after, r.Address());
  }

  lemma {:induction false} PreparedAre(all: seq<Resource>, rs: seq<Resource>, r: Resource)
    ensures r in Prepared(all, rs) <==> r in rs && CountAddress(all, r.Address()) == 1
  {
    if rs != [] {
      PreparedAre(all, rs[1..], r);
      assert rs == [rs[0]] + rs[1..];
    }
  }

  /** Preparation keeps exactly the resources whose address is declared once. */
  lemma PreparedExactly(rs: seq<Resource>, r: Resource)
    ensures r in Prepared(rs, rs) <==> DeclaredOnce(rs, r)
  {
    PreparedAre(rs, rs, r);
    if DeclaredOnce(rs, r) {
      CountedOnce(rs, r);
    }
    if r in rs && CountAddress(rs, r.Address()) == 1 {
      Declared(rs, r);
    }
  }

  // ---------------------------------------------------------------- every finding has its edge, and nothing else has

  /** The graph has this edge, at this risk or a higher one. */
  predicate Carries(g: Graph, source: Id, target: Id, relationship: Relationship, risk: Risk) {
    && (source, target) in g.edges
    && g.edges[(source, target)].relationship == relationship
    && g.edges[(source, target)].risk.Rank() >= risk.Rank()
  }

  /** Each finding of this resource has its edge. */
  ghost predicate Carried(g: Graph, rs: seq<Resource>, r: Resource) {
    match r
    case SecurityGroup(name, ingress) =>
      forall i :: 0 <= i < |ingress| ==>
        Carries(g, "INTERNET", "aws_security_group." + name, INGRESS_ALLOWS, ingress[i].1)
    case Instance(name, attached, roles) =>
      && (forall a :: a in attached && a in g.nodes ==> Carries(g, a, "aws_instance." + name, PROTECTS, LOW))
      && (forall a :: a in roles && a in g.nodes ==> Carries(g, "aws_instance." + name, a, ASSUMES_ROLE, MEDIUM))
    case Role(name, grants) =>
      forall grant, b :: grant in grants && DeclaredOnce(rs, b) && Grants(grant, b) ==>
        Carries(g, "aws_iam_role." + name, b.Address(), CAN_ACCESS, grant.risk)
    case Bucket(name, sensitive, risks) =>
      && (forall i :: 0 <= i < |risks| ==> Carries(g, "INTERNET", "aws_s3_bucket." + name, PUBLIC_ACCESS, risks[i]))
      && (sensitive ==> Carries(g, "aws_s3_bucket." + name, "sensitive_data." + name, CONTAINS, HIGH))
  }

  predicate Grants(grant: Grant, b: Resource) {
    b.Bucket? && (grant.allBuckets || b.Address() in grant.buckets)
  }

  /** The edge is there because of a finding of this resource. */
  ghost predicate Explains(g: Graph, rs: seq<Resource>, r: Resource, l: Link, e: Edge) {
    match r
    case SecurityGroup(name, ingress) =>
      exists i :: 0 <= i < |ingress| && l == ("INTERNET", "aws_security_group." + name)
                  && e == Edge(INGRESS_ALLOWS, ingress[i].1)
    case Instance(name, attached, roles) =>
      || (l.0 in attached && l.0 in g.nodes && l.1 == "aws_instance." + name && e == Edge(PROTECTS, LOW))
      || (l.1 in roles && l.1 in g.nodes && l.0 == "aws_instance." + name && e == Edge(ASSUMES_ROLE, MEDIUM))
    case Role(name, grants) =>
      exists grant, b :: grant in grants && DeclaredOnce(rs, b) && Grants(grant, b)
                         && l == ("aws_iam_role." + name, b.Address()) && e == Edge(CAN_ACCESS, grant.risk)
    case Bucket(name, sensitive, risks) =>
      || (exists i :: 0 <= i < |risks| && l == ("INTERNET", "aws_s3_bucket." + name)
                      && e == Edge(PUBLIC_ACCESS, risks[i]))
      || (sensitive && l == ("aws_s3_bucket." + name, "sensitive_data." + name) && e == Edge(CONTAINS, HIGH))
  }

  lemma {:induction false} IntoFlatMap<T>(rs: seq<T>, f: T -> seq<Candidate>, r: T, c: Candidate)
    requires r in rs && c in f(r)
    ensures c in FlatMap(rs, f)
  {
    if r != rs[0] {
      assert r in rs[1..];
      IntoFlatMap(rs[1..], f, r, c);
    }
  }

  lemma {:induction false} IntoPresentEdges(nodes: map<Id, Node>, refs: seq<Id>, link: Id -> Link, edge: Edge, a: Id)
    requires a in refs && a in nodes
    ensures Candidate(link(a), edge) in PresentEdges(nodes, refs, link, edge)
  {
    if a != refs[0] {
      assert a in refs[1..];
      IntoPresentEdges(nodes, refs[1..], link, edge, a);
    }
  }

  /** The candidates one resource gives. */
  ghost predicate Suggests(nodes: map<Id, Node>, rs: seq<Resource>, r: Resource, c: Candidate) {
    || c in IngressEdges(r) || c in InstanceEdges(nodes, r) || c in RoleEdges(rs, r) || c in PublicEdges(r)
    || c in SensitiveEdges(r)
  }

  lemma CandidatesAreSuggested(nodes: map<Id, Node>, rs: seq<Resource>, c: Candidate)
    ensures c in AllCandidates(nodes, rs) <==> exists r :: r in rs && Suggests(nodes, rs, r, c)
  {
    var instanceEdges := (r: Resource) => InstanceEdges(nodes, r);
    var roleEdges := (r: Resource) => RoleEdges(rs, r);
    hide IngressEdges, InstanceEdges, RoleEdges, PublicEdges, SensitiveEdges;
    if c in AllCandidates(nodes, rs) {
      if c in FlatMap(rs, IngressEdges) {
        FromFlatMap(rs, IngressEdges, c);
      } else if c in FlatMap(rs, instanceEdges) {
        FromFlatMap(rs, instanceEdges, c);
      } else if c in FlatMap(rs, roleEdges) {
        FromFlatMap(rs, roleEdges, c);
      } else if c in FlatMap(rs, PublicEdges) {
        FromFlatMap(rs, PublicEdges, c);
      } else {
        FromFlatMap(rs, SensitiveEdges, c);
      }
    }
    if r :| r in rs && Suggests(nodes, rs, r, c) {
      if c in IngressEdges(r) {
        IntoFlatMap(rs, IngressEdges, r, c);
      } else if c in InstanceEdges(nodes, r) {
        IntoFlatMap(rs, instanceEdges, r, c);
      } else if c in RoleEdges(rs, r) {
        IntoFlatMap(rs, roleEdges, r, c);
      } else if c in PublicEdges(r) {
        IntoFlatMap(rs, PublicEdges, r, c);
      } else {
        IntoFlatMap(rs, SensitiveEdges, r, c);
      }
    }
  }

  lemma GrantsSuggest(all: seq<Resource>, r: Resource, c: Candidate)
    requires r.Role?
    ensures c in RoleEdges(Prepared(all, all), r) <==>
              exists grant, b :: grant in r.grants && DeclaredOnce(all, b) && Grants(grant, b)
                                 && c == Candidate((r.Address(), b.Address()), Edge(CAN_ACCESS, grant.risk))
  {
    var rs := Prepared(all, all);
    hide DeclaredOnce, Prepared;
    var ofGrant := (grant: Grant) => GrantEdges(rs, r.Address(), grant);
    if c in RoleEdges(rs, r) {
      FromFlatMap(r.grants, grant => GrantEdges(rs, r.Address(), grant), c);
      var grant :| grant in r.grants && c in GrantEdges(rs, r.Address(), grant);
      GrantSuggests(rs, r.Address(), grant, c);
      var b :| b in rs && Grants(grant, b) && c == Candidate((r.Address(), b.Address()), Edge(CAN_ACCESS, grant.risk));
      PreparedExactly(all, b);
    }
    if grant, b :| grant in r.grants && DeclaredOnce(all, b) && Grants(grant, b)
                   && c == Candidate((r.Address(), b.Address()), Edge(CAN_ACCESS, grant.risk)) {
      PreparedExactly(all, b);
      GrantSuggests(rs, r.Address(), grant, c);
      IntoFlatMap(r.grants, grant => GrantEdges(rs, r.Address(), grant), grant, c);
    }
  }

  lemma GrantSuggests(rs: seq<Resource>, role: Id, grant: Grant, c: Candidate)
    ensures c in GrantEdges(rs, role, grant) <==>
              exists b :: b in rs && Grants(grant, b)
                          && c == Candidate((role, b.Address()), Edge(CAN_ACCESS, grant.risk))
  {
    var f := (b: Resource) =>
      if b.Bucket? && (grant.allBuckets || b.Address() in grant.buckets)
      then [Candidate((role, b.Address()), Edge(CAN_ACCESS, grant.risk))] else [];
    if c in GrantEdges(rs, role, grant) {
      FromFlatMap(rs, f, c);
    }
    if b :| b in rs && Grants(grant, b) && c == Candidate((role, b.Address()), Edge(CAN_ACCESS, grant.risk)) {
      IntoFlatMap(rs, f, b, c);
    }
  }

  /** An instance gives exactly the edges to and from its attached groups and roles that are nodes. */
  lemma InstanceSuggests(nodes: map<Id, Node>, r: Resource, c: Candidate)
    requires r.Instance?
    ensures c in InstanceEdges(nodes, r) <==>
              || (c.link.0 in r.attached && c.link.0 in nodes && c.link.1 == r.Address()
                  && c.edge == Edge(PROTECTS, LOW))
              || (c.link.1 in r.roles && c.link.1 in nodes && c.link.0 == r.Address()
                  && c.edge == Edge(ASSUMES_ROLE, MEDIUM))
  {
    var guards, assumes := (a: Id) => (a, r.Address()), (a: Id) => (r.Address(), a);
    if c in PresentEdges(nodes, r.attached, source => (source, r.Address()), Edge(PROTECTS, LOW)) {
      FromPresentEdges(nodes, r.attached, source => (source, r.Address()), Edge(PROTECTS, LOW), c);
    }
    if c in PresentEdges(nodes, r.roles, role => (r.Address(), role), Edge(ASSUMES_ROLE, MEDIUM)) {
      FromPresentEdges(nodes, r.roles, role => (r.Address(), role), Edge(ASSUMES_ROLE, MEDIUM), c);
    }
    if c.link.0 in r.attached && c.link.0 in nodes && c.link.1 == r.Address() && c.edge == Edge(PROTECTS, LOW) {
      IntoPresentEdges(nodes, r.attached, source => (source, r.Address()), Edge(PROTECTS, LOW), c.link.0);
    }
    if c.link.1 in r.roles && c.link.1 in nodes && c.link.0 == r.Address() && c.edge == Edge(ASSUMES_ROLE, MEDIUM) {
      IntoPresentEdges(nodes, r.roles, role => (r.Address(), role), Edge(ASSUMES_ROLE, MEDIUM), c.link.1);
    }
  }

  /** A resource suggests exactly the edges its findings explain. */
  lemma SuggestionsAreExplained(g: Graph, all: seq<Resource>, r: Resource, c: Candidate)
    ensures Suggests(g.nodes, Prepared(all, all), r, c) <==> Explains(g, all, r, c.link, c.edge)
  {
    hide DeclaredOnce, Prepared;
    if r.Role? {
      GrantsSuggest(all, r, c);
    } else if r.Instance? {
      InstanceSuggests(g.nodes, r, c);
    } else if r.SecurityGroup? {
      if i :| 0 <= i < |r.ingress| && c == Candidate(("INTERNET", r.Address()), Edge(INGRESS_ALLOWS, r.ingress[i].1)) {
        assert IngressEdges(r)[i] == c;
      }
    } else {
      if i :| 0 <= i < |r.publicRisks|
              && c == Candidate(("INTERNET", r.Address()), Edge(PUBLIC_ACCESS, r.publicRisks[i])) {
        assert PublicEdges(r)[i] == c;
      }
    }
  }

  // ---------------------------------------------------------------- the builder

  class Builder {
    var nodes: map<Id, Node>
    var edges: map<Link, Edge>
    var limitReached: bool

    constructor ()
      ensures nodes == map[INTERNET_ID := Node(INTERNET, false, {})] && edges == map[] && !limitReached
    {
      nodes := map[INTERNET_ID := Node(INTERNET, false, {})];
      edges, limitReached := map[], false;
    }

    function Wired(): Wiring
      reads this
    {
      Wiring(edges, limitReached)
    }

    /** Adds a resource's node and, for a sensitive bucket, its marker. */
    method AddResource(r: Resource)
      modifies `nodes
      ensures nodes == old(nodes)[r.Address() := r.AsNode()] +
                       if r.Bucket? && r.sensitive then map[MarkerId(r.name) := MARKER_NODE] else map[]
    {
      nodes := nodes[r.Address() := r.AsNode()];
      if r.Bucket? && r.sensitive {
        nodes := nodes[MarkerId(r.name) := MARKER_NODE];
      }
    }

    method AddResources(rs: seq<Resource>)
      requires nodes == PlacedNodes([])
      requires forall i, j :: 0 <= i < j < |rs| ==> rs[i].Address() != rs[j].Address()
      modifies `nodes
      ensures Placed(nodes, rs) && |nodes| <= 1 + 2 * |rs|
      ensures Named(nodes, rs) && nodes == PlacedNodes(rs)
    {
      LoneNode();
      for k := 0 to |rs|
        invariant Placed(nodes, rs[..k]) && |nodes| <= 1 + 2 * k
        invariant Named(nodes, rs[..k]) && nodes == PlacedNodes(rs[..k])
      {
        assert rs[..k + 1][..k] == rs[..k];
        PlacedStep(nodes, rs, k);
        NamedStep(nodes, rs, k);
        AddResource(rs[k]);
      }
      assert rs[..|rs|] == rs;
    }

    /** Keeps the highest-risk reason when the edge exists already. */
    method AddEdge(c: Candidate)
      modifies `edges, `limitReached
      ensures Wired() == Insert(old(Wired()), c)
    {
      if c.link in edges {
        if edges[c.link].risk.Rank() >= c.edge.risk.Rank() { return; }
      } else if |edges| >= MAX_EDGES {
        limitReached := true;
        return;
      }
      edges := edges[c.link := c.edge];
    }

    method AddEdges(cs: seq<Candidate>)
      requires edges == map[] && !limitReached
      modifies `edges, `limitReached
      ensures Wired() == InsertAll(Wiring(map[], false), cs)
    {
      for k := 0 to |cs|
        invariant Wired() == InsertAll(Wiring(map[], false), cs[..k])
      {
        AddEdge(cs[k]);
        assert cs[..k + 1][..k] == cs[..k];
      }
      assert cs[..|cs|] == cs;
    }
  }

  /** Every node is the internet, a resource or a resource's marker. */
  ghost predicate Named(nodes: map<Id, Node>, rs: seq<Resource>) {
    forall n :: n in nodes ==> n == INTERNET_ID || exists r :: r in rs && (n == r.Address() || n == MarkerId(r.name))
  }

  lemma LoneNode()
    ensures Named(PlacedNodes([]), []) && Placed(PlacedNodes([]), []) && |PlacedNodes([])| == 1
  {
    assert PlacedNodes([]).Keys == {INTERNET_ID};
    assert KindOf(INTERNET_ID) == INTERNET by { AddressKinds(Role("", [])); }
  }

  lemma NamedStep(nodes: map<Id, Node>, rs: seq<Resource>, k: nat)
    requires k < |rs| && Named(nodes, rs[..k])
    ensures Named(WithResource(nodes, rs[k]), rs[..k + 1])
  {
    assert rs[..k + 1] == rs[..k] + [rs[k]];
    var more := WithResource(nodes, rs[k]);
    forall n | n in more && n != INTERNET_ID
      ensures exists r :: r in rs[..k + 1] && (n == r.Address() || n == MarkerId(r.name))
    {
      if n in nodes {
        var r :| r in rs[..k] && (n == r.Address() || n == MarkerId(r.name));
        assert r in rs[..k + 1];
      } else {
        assert rs[k] in rs[..k + 1];
      }
    }
  }

  lemma AddressIsUnbroken(r: Resource)
    requires !HasSeparator(r.name)
    ensures Unbroken(r.Address()) && Unbroken(MarkerId(r.name))
  {
    hide Unbroken, HasSeparator;
    PrefixedIsUnbroken("sensitive_data.", r.name);
    match r
    case SecurityGroup(name, _) => PrefixedIsUnbroken("aws_security_group.", name);
    case Instance(name, _, _) => PrefixedIsUnbroken("aws_instance.", name);
    case Role(name, _) => PrefixedIsUnbroken("aws_iam_role.", name);
    case Bucket(name, _, _) => PrefixedIsUnbroken("aws_s3_bucket.", name);
  }

  /** Names without the separator give ids that path keys keep apart. */
  lemma NamesGiveUnbrokenIds(nodes: map<Id, Node>, rs: seq<Resource>)
    requires Named(nodes, rs) && forall r :: r in rs ==> !HasSeparator(r.name)
    ensures forall n :: n in nodes ==> Unbroken(n)
  {
    forall n | n in nodes ensures Unbroken(n) {
      if n == INTERNET_ID {
        PrefixedIsUnbroken(INTERNET_ID, "");
        assert INTERNET_ID + "" == INTERNET_ID;
      } else {
        var r :| r in rs && (n == r.Address() || n == MarkerId(r.name));
        AddressIsUnbroken(r);
      }
    }
  }

  function WithResource(nodes: map<Id, Node>, r: Resource): map<Id, Node> {
    nodes[r.Address() := r.AsNode()] + if r.Bucket? && r.sensitive then map[MarkerId(r.name) := MARKER_NODE] else map[]
  }

  /** The internet, and the resources placed in order. */
  function PlacedNodes(rs: seq<Resource>): map<Id, Node> {
    if rs == [] then map[INTERNET_ID := Node(INTERNET, false, {})]
    else WithResource(PlacedNodes(rs[..|rs| - 1]), rs[|rs| - 1])
  }

  lemma PlacedStep(nodes: map<Id, Node>, rs: seq<Resource>, k: nat)
    requires k < |rs| && Placed(nodes, rs[..k])
    requires forall i, j :: 0 <= i < j < |rs| ==> rs[i].Address() != rs[j].Address()
    ensures Placed(WithResource(nodes, rs[k]), rs[..k + 1])
    ensures |WithResource(nodes, rs[k])| <= |nodes| + 2
  {
    hide InPlace, KindsSpelled, WithResource;
    var r, more := rs[k], WithResource(nodes, rs[k]);
    WithResourceGrows(nodes, r);
    KindsStep(nodes, r);
    assert rs[..k + 1] == rs[..k] + [r];
    forall s | s in rs[..k + 1] ensures InPlace(more, s) {
      if s in rs[..k] {
        var i :| 0 <= i < k && rs[i] == s;
        OthersStayInPlace(nodes, r, s);
      } else {
        NewIsInPlace(nodes, r);
      }
    }
  }

  lemma KindsStep(nodes: map<Id, Node>, r: Resource)
    requires KindsSpelled(nodes)
    ensures KindsSpelled(WithResource(nodes, r))
  {
    AddressKinds(r);
  }

  lemma NewIsInPlace(nodes: map<Id, Node>, r: Resource)
    ensures InPlace(WithResource(nodes, r), r)
  {
    AddressKinds(r);
  }

  lemma OthersStayInPlace(nodes: map<Id, Node>, r: Resource, s: Resource)
    requires InPlace(nodes, s) && s.Address() != r.Address()
    ensures InPlace(WithResource(nodes, r), s)
  {
    AddressKinds(r);
    AddressKinds(s);
  }

  lemma WithResourceGrows(nodes: map<Id, Node>, r: Resource)
    ensures |WithResource(nodes, r)| <= |nodes| + 2
    ensures forall n :: n in nodes ==> n in WithResource(nodes, r)
  {
    var more := WithResource(nodes, r);
    assert more.Keys <= nodes.Keys + {r.Address()} + {MarkerId(r.name)};
    RiskScore.SmallerSet(more.Keys, nodes.Keys + {r.Address()} + {MarkerId(r.name)});
  }

  const GRAPH_TRUNCATED := Diagnostic("GRAPH_TRUNCATED", true)

  datatype Built = TooManyResources | Built(graph: Graph)

  /** What the builder's steps come to. */
  function BuiltGraph(resources: seq<Resource>, diagnostics: seq<Diagnostic>): Graph {
    var rs := Prepared(resources, resources);
    var nodes := PlacedNodes(rs);
    var w := InsertAll(Wiring(map[], false), AllCandidates(nodes, rs));
    Graph(nodes, w.edges, diagnostics + if w.limitReached then [GRAPH_TRUNCATED] else [])
  }

  /**
   * The whole builder. The graph has the builder's shape, fits the analysis budgets and, unless it says
   * it was truncated, carries for every link the strongest finding and nothing else.
   */
  method BuildGraph(resources: seq<Resource>, diagnostics: seq<Diagnostic>) returns (o: Built)
    requires forall r :: r in resources ==> r.RefsOk()
    ensures o == if |resources| > 1000 then TooManyResources else Built(BuiltGraph(resources, diagnostics))
    ensures o.Built? ==> Shaped(o.graph) && |o.graph.nodes| <= 2500 && |o.graph.edges| <= 20_000
    ensures o.Built? && (forall r :: r in resources ==> !HasSeparator(r.name)) ==>
              forall n :: n in o.graph.nodes ==> Unbroken(n)
    ensures o.Built? ==> NodesAre(o.graph.nodes, resources) && Explained(o.graph, resources)
    ensures o.Built? && GRAPH_TRUNCATED in o.graph.diagnostics && GRAPH_TRUNCATED !in diagnostics ==>
              |o.graph.edges| == 20_000
    ensures o.Built? && GRAPH_TRUNCATED !in o.graph.diagnostics ==>
              forall r :: DeclaredOnce(resources, r) ==> Carried(o.graph, resources, r)
    ensures o.Built? && GRAPH_TRUNCATED !in o.graph.diagnostics ==>
              forall l :: (if l in o.graph.edges then [o.graph.edges[l]] else []) ==
                          Strongest(AllCandidates(o.graph.nodes, Prepared(resources, resources)), l)
  {
    if |resources| > MAX_RESOURCES { return TooManyResources; }
    var rs := Prepared(resources, resources);
    PreparedIsUnique(resources, resources);
    var b := new Builder();
    b.AddResources(rs);
    var candidates := AllCandidates(b.nodes, rs);
    b.AddEdges(candidates);
    var g := Graph(b.nodes, b.edges, diagnostics + if b.limitReached then [GRAPH_TRUNCATED] else []);
    InsertKeepsStrongest(candidates);
    forall e | e in g.edges ensures CandidateFits(g.nodes, Candidate(e, g.edges[e])) {
      InsertedCameFromCandidates(candidates, e);
      CandidatesFit(g.nodes, rs, Candidate(e, g.edges[e]));
    }
    if b.limitReached { assert g.diagnostics[|diagnostics|] == GRAPH_TRUNCATED; }
    if forall r :: r in resources ==> !HasSeparator(r.name) {
      NamesGiveUnbrokenIds(b.nodes, rs);
    }
    BuiltMeans(resources, diagnostics);
    o := Built(g);
  }

  // ---------------------------------------------------------------- the built graph, from the resources alone

  /** Only a full graph is cut. */
  lemma {:induction false} CutIsFull(cs: seq<Candidate>)
    ensures var w := InsertAll(Wiring(map[], false), cs); w.limitReached ==> |w.edges| == MAX_EDGES
  {
    InsertKeepsStrongest(cs);
    if cs != [] {
      var before, last := InsertAll(Wiring(map[], false), cs[..|cs| - 1]), cs[|cs| - 1];
      CutIsFull(cs[..|cs| - 1]);
      InsertKeepsStrongest(cs[..|cs| - 1]);
      if last.link in before.edges {
        assert before.edges[last.link := last.edge].Keys == before.edges.Keys;
      }
    }
  }

  /** A cut graph is never analysed as complete. */
  lemma CutIsIncomplete(g: Graph, r: Analysis)
    requires IsAnalysis(g, r) && GRAPH_TRUNCATED in g.diagnostics
    ensures !r.Complete()
  {
    CompleteMeans(g, r);
  }

  /** The resources determine the graph: its nodes, a reason for every edge and, unless cut, every reason's edge. */
  lemma BuiltMeans(resources: seq<Resource>, diagnostics: seq<Diagnostic>)
    requires forall r :: r in resources ==> r.RefsOk()
    ensures var g := BuiltGraph(resources, diagnostics);
      && NodesAre(g.nodes, resources) && Explained(g, resources)
      && (GRAPH_TRUNCATED !in g.diagnostics ==> forall r :: DeclaredOnce(resources, r) ==> Carried(g, resources, r))
      && (GRAPH_TRUNCATED in g.diagnostics && GRAPH_TRUNCATED !in diagnostics ==> |g.edges| == 20_000)
  {
    var g := BuiltGraph(resources, diagnostics);
    CutIsFull(AllCandidates(g.nodes, Prepared(resources, resources)));
    assert diagnostics + [] == diagnostics;
    NodesOfPrepared(resources);
    BuiltIsExplained(resources, diagnostics);
    hide NodesAre, Explained, DeclaredOnce, Carried;
    if GRAPH_TRUNCATED !in g.diagnostics {
      forall r | DeclaredOnce(resources, r) ensures Carried(g, resources, r) {
        FindingsAreCarried(resources, diagnostics, r);
      }
    }
  }

  /** The nodes are the internet, the resources declared once, and the markers of the sensitive buckets among them. */
  ghost predicate NodesAre(nodes: map<Id, Node>, rs: seq<Resource>) {
    && (forall n :: n in nodes <==>
          || n == "INTERNET"
          || exists r :: DeclaredOnce(rs, r) && (n == r.Address() || (Sensitive(r) && n == "sensitive_data." + r.name)))
    && "INTERNET" in nodes && nodes["INTERNET"] == Node(INTERNET, false, {})
    && forall r :: DeclaredOnce(rs, r) ==> r.Address() in nodes && IsNodeOf(nodes, r)
  }

  predicate Sensitive(r: Resource) {
    r.Bucket? && r.sensitive
  }

  /** The node of a resource, and the marker of a sensitive bucket. */
  ghost predicate IsNodeOf(nodes: map<Id, Node>, r: Resource)
    requires r.Address() in nodes
  {
    var node := nodes[r.Address()];
    && node.sensitive == Sensitive(r)
    && (Sensitive(r) ==> "sensitive_data." + r.name in nodes
                         && nodes["sensitive_data." + r.name] == Node(SENSITIVE_DATA, true, {}))
    && match r
       case SecurityGroup(_, rules) =>
         && node.kind == SECURITY_GROUP
         && forall f :: f in node.ingress <==> exists i :: 0 <= i < |rules| && rules[i].0 == f
       case Instance(_, _, _) => node.kind == EC2 && node.ingress == {}
       case Role(_, _) => node.kind == IAM_ROLE && node.ingress == {}
       case Bucket(_, _, _) => node.kind == S3_BUCKET && node.ingress == {}
  }

  /** Every edge comes from a finding. */
  ghost predicate Explained(g: Graph, rs: seq<Resource>) {
    forall l :: l in g.edges ==> exists r :: DeclaredOnce(rs, r) && Explains(g, rs, r, l, g.edges[l])
  }

  /** What is placed, node by node. */
  ghost predicate PlacedAs(nodes: map<Id, Node>, rs: seq<Resource>) {
    && (forall n :: n in nodes <==>
          || n == INTERNET_ID
          || exists r :: r in rs && (n == r.Address() || (Sensitive(r) && n == MarkerId(r.name))))
    && INTERNET_ID in nodes && nodes[INTERNET_ID] == Node(INTERNET, false, {})
    && forall r :: r in rs ==> r.Address() in nodes && nodes[r.Address()] == r.AsNode()
                               && (Sensitive(r) ==> MarkerId(r.name) in nodes && nodes[MarkerId(r.name)] == MARKER_NODE)
  }

  lemma {:induction false} PlacedNodesAre(rs: seq<Resource>)
    requires forall i, j :: 0 <= i < j < |rs| ==> rs[i].Address() != rs[j].Address()
    ensures PlacedAs(PlacedNodes(rs), rs)
  {
    hide PlacedAs, WithResource;
    NothingPlaced();
    if rs != [] {
      PlacedNodesAre(rs[..|rs| - 1]);
      PlaceOne(PlacedNodes(rs[..|rs| - 1]), rs[..|rs| - 1], rs[|rs| - 1]);
      assert rs == rs[..|rs| - 1] + [rs[|rs| - 1]];
    }
  }

  lemma NothingPlaced()
    ensures PlacedAs(PlacedNodes([]), [])
  {
  }

  lemma PlaceOne(nodes: map<Id, Node>, rs: seq<Resource>, r: Resource)
    requires PlacedAs(nodes, rs) && forall s :: s in rs ==> s.Address() != r.Address()
    ensures PlacedAs(WithResource(nodes, r), rs + [r])
  {
    var more := WithResource(nodes, r);
    PlacedHere(nodes, r);
    forall s | s in rs + [r]
      ensures s.Address() in more && more[s.Address()] == s.AsNode()
      ensures Sensitive(s) ==> MarkerId(s.name) in more && more[MarkerId(s.name)] == MARKER_NODE
    {
      if s in rs {
        PlacedElsewhere(nodes, r, s);
      }
    }
    assert forall s :: s in rs ==> s in rs + [r];
    assert r in rs + [r];
    hide Resource.Address, Resource.AsNode, MarkerId, WithResource;
  }

  lemma PlacedHere(nodes: map<Id, Node>, r: Resource)
    ensures var more := WithResource(nodes, r);
      && more.Keys == nodes.Keys + {r.Address()} + (if Sensitive(r) then {MarkerId(r.name)} else {})
      && more[r.Address()] == r.AsNode() && (Sensitive(r) ==> more[MarkerId(r.name)] == MARKER_NODE)
      && (INTERNET_ID in nodes ==> more[INTERNET_ID] == nodes[INTERNET_ID])
  {
    AddressKinds(r);
  }

  lemma PlacedElsewhere(nodes: map<Id, Node>, r: Resource, s: Resource)
    requires s.Address() in nodes && nodes[s.Address()] == s.AsNode() && s.Address() != r.Address()
    requires Sensitive(s) ==> MarkerId(s.name) in nodes && nodes[MarkerId(s.name)] == MARKER_NODE
    ensures var more := WithResource(nodes, r);
      && s.Address() in more && more[s.Address()] == s.AsNode()
      && (Sensitive(s) ==> MarkerId(s.name) in more && more[MarkerId(s.name)] == MARKER_NODE)
  {
    AddressKinds(r);
    AddressKinds(s);
  }

  lemma NodesOfPrepared(resources: seq<Resource>)
    ensures NodesAre(PlacedNodes(Prepared(resources, resources)), resources)
  {
    var rs := Prepared(resources, resources);
    var nodes := PlacedNodes(rs);
    PreparedIsUnique(resources, resources);
    PlacedNodesAre(rs);
    forall r ensures r in rs <==> DeclaredOnce(resources, r) { PreparedExactly(resources, r); }
    hide PlacedNodes, Prepared, DeclaredOnce;
    forall r | r in rs ensures IsNodeOf(nodes, r) {
      NodeMeans(nodes, r);
    }
    hide IsNodeOf;
  }

  lemma NodeMeans(nodes: map<Id, Node>, r: Resource)
    requires r.Address() in nodes && nodes[r.Address()] == r.AsNode()
    requires Sensitive(r) ==> MarkerId(r.name) in nodes && nodes[MarkerId(r.name)] == MARKER_NODE
    ensures IsNodeOf(nodes, r)
  {
  }

  lemma FitsOneWay(source: Node, a: Relationship, b: Relationship, target: Node)
    requires Fits(source, a, target) && Fits(source, b, target)
    ensures a == b
  {
  }

  /** Every candidate's edge is there, with its relationship and at its risk or a higher one. */
  lemma CandidateIsCarried(nodes: map<Id, Node>, rs: seq<Resource>, c: Candidate)
    requires Placed(nodes, rs) && (forall r :: r in rs ==> r.RefsOk()) && c in AllCandidates(nodes, rs)
    requires var w := InsertAll(Wiring(map[], false), AllCandidates(nodes, rs)); !w.limitReached
    ensures var w := InsertAll(Wiring(map[], false), AllCandidates(nodes, rs));
      && c.link in w.edges && w.edges[c.link].relationship == c.edge.relationship
      && w.edges[c.link].risk.Rank() >= c.edge.risk.Rank()
  {
    hide Placed, Fits, AllCandidates, InsertAll, Strongest;
    var cs := AllCandidates(nodes, rs);
    var w := InsertAll(Wiring(map[], false), cs);
    InsertKeepsStrongest(cs);
    StrongestIsHighest(cs, c.link);
    CandidatesFit(nodes, rs, c);
    CandidatesFit(nodes, rs, Candidate(c.link, w.edges[c.link]));
    FitsOneWay(nodes[c.link.0], c.edge.relationship, w.edges[c.link].relationship, nodes[c.link.1]);
  }

  lemma PreparedRefs(resources: seq<Resource>)
    requires forall r :: r in resources ==> r.RefsOk()
    ensures forall r :: r in Prepared(resources, resources) ==> r.RefsOk()
    ensures Placed(PlacedNodes(Prepared(resources, resources)), Prepared(resources, resources))
  {
    PreparedIsUnique(resources, resources);
    PlacedThroughout(Prepared(resources, resources));
  }

  lemma {:induction false} PlacedThroughout(rs: seq<Resource>)
    requires forall i, j :: 0 <= i < j < |rs| ==> rs[i].Address() != rs[j].Address()
    ensures Placed(PlacedNodes(rs), rs)
  {
    hide Placed, WithResource;
    LoneNode();
    if rs != [] {
      var k := |rs| - 1;
      PlacedThroughout(rs[..k]);
      assert rs[..k + 1] == rs;
      PlacedStep(PlacedNodes(rs[..k]), rs, k);
    }
  }

  /** Whatever a finding explains is carried, unless the graph was cut. */
  lemma ExplainedIsCarried(resources: seq<Resource>, diagnostics: seq<Diagnostic>, r: Resource, l: Link, e: Edge)
    requires forall s :: s in resources ==> s.RefsOk()
    requires var g := BuiltGraph(resources, diagnostics);
      GRAPH_TRUNCATED !in g.diagnostics && DeclaredOnce(resources, r) && Explains(g, resources, r, l, e)
    ensures Carries(BuiltGraph(resources, diagnostics), l.0, l.1, e.relationship, e.risk)
  {
    var g, rs := BuiltGraph(resources, diagnostics), Prepared(resources, resources);
    hide DeclaredOnce, Explains, AllCandidates, Suggests, Placed, Prepared;
    SuggestionsAreExplained(g, resources, r, Candidate(l, e));
    PreparedExactly(resources, r);
    CandidatesAreSuggested(g.nodes, rs, Candidate(l, e));
    PreparedRefs(resources);
    CutIsReported(resources, diagnostics);
    CandidateIsCarried(g.nodes, rs, Candidate(l, e));
  }

  lemma CutIsReported(resources: seq<Resource>, diagnostics: seq<Diagnostic>)
    ensures var rs := Prepared(resources, resources);
      InsertAll(Wiring(map[], false), AllCandidates(PlacedNodes(rs), rs)).limitReached ==>
        GRAPH_TRUNCATED in BuiltGraph(resources, diagnostics).diagnostics
  {
    assert GRAPH_TRUNCATED in diagnostics + [GRAPH_TRUNCATED];
  }

  /** Every finding of every resource declared once has its edge, unless the graph was cut. */
  lemma FindingsAreCarried(resources: seq<Resource>, diagnostics: seq<Diagnostic>, r: Resource)
    requires forall s :: s in resources ==> s.RefsOk()
    requires GRAPH_TRUNCATED !in BuiltGraph(resources, diagnostics).diagnostics && DeclaredOnce(resources, r)
    ensures Carried(BuiltGraph(resources, diagnostics), resources, r)
  {
    var g := BuiltGraph(resources, diagnostics);
    hide BuiltGraph, DeclaredOnce, Carries;
    forall l, e | Explains(g, resources, r, l, e) ensures Carries(g, l.0, l.1, e.relationship, e.risk) {
      ExplainedIsCarried(resources, diagnostics, r, l, e);
    }
    FindingsAreExplained(g, resources, r);
  }

  /** What every explained edge is carried for. */
  lemma FindingsAreExplained(g: Graph, rs: seq<Resource>, r: Resource)
    requires forall l, e :: Explains(g, rs, r, l, e) ==> Carries(g, l.0, l.1, e.relationship, e.risk)
    ensures Carried(g, rs, r)
  {
    hide DeclaredOnce, Carries, Grants;
    match r {
      case SecurityGroup(name, ingress) =>
        forall i | 0 <= i < |ingress|
          ensures Carries(g, "INTERNET", "aws_security_group." + name, INGRESS_ALLOWS, ingress[i].1)
        {
          assert Explains(g, rs, r, ("INTERNET", "aws_security_group." + name), Edge(INGRESS_ALLOWS, ingress[i].1));
        }
      case Instance(name, attached, roles) =>
        forall a | a in attached && a in g.nodes ensures Carries(g, a, "aws_instance." + name, PROTECTS, LOW) {
          assert Explains(g, rs, r, (a, "aws_instance." + name), Edge(PROTECTS, LOW));
        }
        forall a | a in roles && a in g.nodes ensures Carries(g, "aws_instance." + name, a, ASSUMES_ROLE, MEDIUM) {
          assert Explains(g, rs, r, ("aws_instance." + name, a), Edge(ASSUMES_ROLE, MEDIUM));
        }
      case Role(name, grants) =>
        forall grant, b | grant in grants && DeclaredOnce(rs, b) && Grants(grant, b)
          ensures Carries(g, "aws_iam_role." + name, b.Address(), CAN_ACCESS, grant.risk)
        {
          assert Explains(g, rs, r, ("aws_iam_role." + name, b.Address()), Edge(CAN_ACCESS, grant.risk));
        }
      case Bucket(name, sensitive, risks) =>
        forall i | 0 <= i < |risks|
          ensures Carries(g, "INTERNET", "aws_s3_bucket." + name, PUBLIC_ACCESS, risks[i])
        {
          assert Explains(g, rs, r, ("INTERNET", "aws_s3_bucket." + name), Edge(PUBLIC_ACCESS, risks[i]));
        }
        if sensitive {
          assert Explains(g, rs, r, ("aws_s3_bucket." + name, "sensitive_data." + name), Edge(CONTAINS, HIGH));
        }
    }
  }

  /** Every edge of the graph comes from a finding of a resource declared once. */
  lemma BuiltIsExplained(resources: seq<Resource>, diagnostics: seq<Diagnostic>)
    ensures Explained(BuiltGraph(resources, diagnostics), resources)
  {
    var g, rs := BuiltGraph(resources, diagnostics), Prepared(resources, resources);
    hide DeclaredOnce, Explains, AllCandidates, Suggests, Prepared;
    forall l | l in g.edges ensures exists r :: DeclaredOnce(resources, r) && Explains(g, resources, r, l, g.edges[l]) {
      var c := Candidate(l, g.edges[l]);
      InsertedCameFromCandidates(AllCandidates(g.nodes, rs), l);
      CandidatesAreSuggested(g.nodes, rs, c);
      var r :| r in rs && Suggests(g.nodes, rs, r, c);
      PreparedExactly(resources, r);
      SuggestionsAreExplained(g, resources, r, c);
    }
  }

  // ---------------------------------------------------------------- what the shape buys

  /** Reaching a sensitive marker means reaching its sensitive bucket first. */
  lemma MarkerMeansSensitiveResource(g: Graph, m: Id)
    requires Shaped(g) && Reaches(g, m) && m in g.nodes && g.nodes[m].kind == SENSITIVE_DATA
    ensures exists b :: b in SensitiveResources(g) && b != INTERNET_ID && Reaches(g, b)
  {
    var p :| WalkTo(g, p, m);
    assert |p| > 1;
    PrefixReaches(g, p, |p| - 2);
    var b := p[|p| - 2];
    assert (p[|p| - 2], p[|p| - 1]) in g.edges;
    assert b in SensitiveResources(g);
  }

  lemma PrefixReaches(g: Graph, p: seq<Id>, k: nat)
    requires Walk(g, p) && p[0] == INTERNET_ID && k < |p|
    ensures Reaches(g, p[k])
  {
    var q := p[..k + 1];
    forall i | 0 <= i < |q| - 1 ensures (q[i], q[i + 1]) in g.edges { assert (p[i], p[i + 1]) in g.edges; }
    assert WalkTo(g, q, p[k]);
  }

  lemma ListedIsSound(r: Analysis, p: Path)
    requires Explored(r.graph, r) && p in r.attackPaths
    ensures SoundPath(r.graph, p, Last(p))
  {
    var i :| 0 <= i < |r.attackPaths| && r.attackPaths[i] == p;
    assert SoundPath(r.graph, r.attackPaths[i], Last(r.attackPaths[i]));
  }

  lemma ReachedSensitiveIsListed(r: Analysis, b: Id)
    requires Explored(r.graph, r) && b in SensitiveResources(r.graph) && b != INTERNET_ID && Reaches(r.graph, b)
    ensures b in r.reachableSensitive
  {
  }

  /** On builder-shaped graphs a critical path adds nothing the reachable sensitive resources did not say. */
  lemma CriticalPathIsReachableSensitive(r: Analysis)
    requires Shaped(r.graph) && Explored(r.graph, r) && r.HasCriticalPath()
    ensures r.reachableSensitive != {}
  {
    var p :| p in r.attackPaths && p.reachesSensitive;
    ListedIsSound(r, p);
    SensitivePathReaches(r.graph, p);
    var b :| b in SensitiveResources(r.graph) && b != INTERNET_ID && Reaches(r.graph, b);
    ReachedSensitiveIsListed(r, b);
  }

  lemma SensitivePathReaches(g: Graph, p: Path)
    requires Shaped(g) && SoundPath(g, p, Last(p)) && p.reachesSensitive
    ensures exists b :: b in SensitiveResources(g) && b != INTERNET_ID && Reaches(g, b)
  {
    var n :| n in p.nodes && n in g.nodes && g.nodes[n].kind == SENSITIVE_DATA;
    var k :| 0 <= k < |p.nodes| && p.nodes[k] == n;
    PrefixReaches(g, p.nodes, k);
    MarkerMeansSensitiveResource(g, n);
  }

  /** The score of a built graph does not depend on how far path enumeration got. */
  lemma ScoreIgnoresBudgets(r: Analysis, s: Analysis)
    requires r.graph == s.graph && Shaped(r.graph) && IsAnalysis(r.graph, r) && IsAnalysis(s.graph, s)
    ensures r.score == s.score
  {
    assert r.reachable == s.reachable;
    PathsAddNothing(r);
    PathsAddNothing(s);
    assert r.Facts().(criticalPaths := false) == s.Facts().(criticalPaths := false);
  }

  lemma PathsAddNothing(r: Analysis)
    requires Shaped(r.graph) && IsAnalysis(r.graph, r)
    ensures RiskScore.Score(r.Facts()) == RiskScore.Score(r.Facts().(criticalPaths := false))
  {
    if r.HasCriticalPath() { CriticalPathIsReachableSensitive(r); }
    assert RiskScore.Tally(r.Facts()) == RiskScore.Tally(r.Facts().(criticalPaths := false));
  }

  /** Adding edges to a built graph, or raising their risk, never raises the score. */
  lemma ScoreFallsWithRisk(r: Analysis, s: Analysis)
    requires Shaped(r.graph) && Shaped(s.graph) && IsAnalysis(r.graph, r) && IsAnalysis(s.graph, s)
    requires r.graph.nodes == s.graph.nodes && EdgesWithin(r.graph, s.graph)
    requires forall e :: e in r.graph.edges ==> r.graph.edges[e].risk.Rank() <= s.graph.edges[e].risk.Rank()
    ensures s.score <= r.score
  {
    EdgesOnlyWeaken(r.graph, s.graph);
    ReachabilityGrows(r, s);
    PathsAddNothing(r);
    PathsAddNothing(s);
    RiskScore.ScoreNeverRises(r.Facts().(criticalPaths := false), s.Facts().(criticalPaths := false));
  }

  /** The kinds of its ends fix an edge's relationship. */
  lemma EdgesOnlyWeaken(g: Graph, h: Graph)
    requires Shaped(g) && Shaped(h) && g.nodes == h.nodes && EdgesWithin(g, h)
    requires forall e :: e in g.edges ==> g.edges[e].risk.Rank() <= h.edges[e].risk.Rank()
    ensures RiskScore.Weaker(g, h)
  {
  }

  lemma ReachabilityGrows(r: Analysis, s: Analysis)
    requires Explored(r.graph, r) && Explored(s.graph, s)
    requires r.graph.nodes == s.graph.nodes && EdgesWithin(r.graph, s.graph)
    ensures r.exposed <= s.exposed && r.reachableSensitive <= s.reachableSensitive
  {
    forall n | n in r.reachable ensures n in s.reachable {
      ReachesMoreWithMoreEdges(r.graph, s.graph, n);
    }
  }
}
