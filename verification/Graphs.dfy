/** The attack graph: typed nodes, risk-carrying edges, walks and reachability from the internet. */
module Graphs {
  import opened Ids

  datatype Risk = NONE | LOW | MEDIUM | HIGH | CRITICAL {
    function Rank(): nat {
      match this case NONE => 0 case LOW => 1 case MEDIUM => 2 case HIGH => 3 case CRITICAL => 4
    }
  }

  datatype NodeType = INTERNET | SECURITY_GROUP | EC2 | IAM_ROLE | S3_BUCKET | SENSITIVE_DATA

  datatype Relationship = INGRESS_ALLOWS | PUBLIC_ACCESS | PROTECTS | ASSUMES_ROLE | CAN_ACCESS | CONTAINS

  /** One publicly reachable ingress rule of a security group. */
  datatype Ingress = Ingress(cidr: string, fromPort: int, toPort: int, protocol: string, adminPort: bool)

  datatype Node = Node(kind: NodeType, sensitive: bool, ingress: set<Ingress>)

  datatype Edge = Edge(relationship: Relationship, risk: Risk)

  datatype Diagnostic = Diagnostic(code: string, blocksAnalysis: bool)

  type Link = (Id, Id)

  datatype Graph = Graph(nodes: map<Id, Node>, edges: map<Link, Edge>, diagnostics: seq<Diagnostic>)

  const INTERNET_ID: Id := "INTERNET"

  /** Edges join nodes of the graph. */
  predicate WellFormed(g: Graph) {
    forall e :: e in g.edges ==> e.0 in g.nodes && e.1 in g.nodes
  }

  function Successors(g: Graph, n: Id): set<Id> {
    set m | m in g.nodes && (n, m) in g.edges
  }

  /** A nonempty node list whose consecutive nodes are joined by edges. */
  predicate Walk(g: Graph, p: seq<Id>) {
    && p != []
    && forall i :: 0 <= i < |p| - 1 ==> (p[i], p[i + 1]) in g.edges
  }

  predicate Simple(p: seq<Id>) {
    forall i, j :: 0 <= i < j < |p| ==> p[i] != p[j]
  }

  predicate WalkTo(g: Graph, p: seq<Id>, target: Id) {
    Walk(g, p) && p[0] == INTERNET_ID && p[|p| - 1] == target
  }

  /** A route an attacker can take from the internet to the target without repeating a node. */
  predicate Route(g: Graph, p: seq<Id>, target: Id) {
    WalkTo(g, p, target) && Simple(p)
  }

  ghost predicate Reaches(g: Graph, target: Id) {
    exists p :: WalkTo(g, p, target)
  }

  /** What `nx.descendants` promises: everything the internet reaches, except itself. */
  ghost predicate AreDescendants(g: Graph, s: set<Id>) {
    forall n :: n in s <==> n != INTERNET_ID && Reaches(g, n)
  }

  /** A resource the internet can reach in the graph, stated by walks and not by any list. */
  ghost predicate Exposed(g: Graph, n: Id) {
    n != INTERNET_ID && Reaches(g, n) && n in g.nodes && g.nodes[n].kind in {EC2, IAM_ROLE, S3_BUCKET}
  }

  ghost predicate SensitiveReached(g: Graph, n: Id) {
    && n != INTERNET_ID && Reaches(g, n) && n in g.nodes
    && g.nodes[n].sensitive && g.nodes[n].kind != SENSITIVE_DATA
  }

  /** The node list visits a node that stands for sensitive data. */
  predicate VisitsMarker(g: Graph, p: seq<Id>) {
    exists i :: 0 <= i < |p| && p[i] in g.nodes && g.nodes[p[i]].kind == SENSITIVE_DATA
  }

  /** The node list runs over an edge of high or critical risk. */
  predicate RunsHighRisk(g: Graph, p: seq<Id>) {
    exists i :: 0 <= i < |p| - 1 && (p[i], p[i + 1]) in g.edges && g.edges[(p[i], p[i + 1])].risk in {HIGH, CRITICAL}
  }

  /** The edges of one graph are edges of the other. */
  predicate EdgesWithin(g: Graph, h: Graph) {
    forall e :: e in g.edges ==> e in h.edges
  }

  lemma ReachesMoreWithMoreEdges(g: Graph, h: Graph, target: Id)
    requires EdgesWithin(g, h) && Reaches(g, target)
    ensures Reaches(h, target)
  {
    var p :| WalkTo(g, p, target);
    assert WalkTo(h, p, target);
  }
}
