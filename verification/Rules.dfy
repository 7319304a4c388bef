/** Security rules: reference collection, the resource index against a linear scan, and bucket patterns. */
module Rules {
  import opened Wrappers
  import opened Sequences

  type Address = string

  /** A normalized Terraform value, with the addresses each string refers to. */
  datatype Value =
    | Text(addresses: seq<Address>)      // a plain string and the reference-shaped text in it
    | PolicyText(genuine: seq<Address>)  // a policy string and the resources it genuinely references
    | List(items: seq<Value>)
    | Dict(values: seq<Value>)
    | Scalar

  // ---------------------------------------------------------------- references

  /** All addresses a value mentions, in document order; plain text counts only when `literal`. */
  function Mentions(v: Value, literal: bool): seq<Address>
    decreases v, 1
  {
    match v
    case Text(a) => if literal then a else []
    case PolicyText(a) => a
    case List(items) => MentionsIn(items, literal)
    case Dict(values) => MentionsIn(values, literal)
    case Scalar => []
  }

  function MentionsIn(vs: seq<Value>, literal: bool): seq<Address>
    decreases vs, 0
  {
    if vs == [] then [] else Mentions(vs[0], literal) + MentionsIn(vs[1..], literal)
  }

  /** Appends, in order, the addresses not there yet. */
  function Onto(found: seq<Address>, more: seq<Address>): seq<Address>
    decreases |more|
  {
    if more == [] then found
    else Onto(if more[0] in found then found else found + [more[0]], more[1..])
  }

  /** The first mention of every address, in document order. */
  function References(v: Value, literal: bool): seq<Address> {
    Onto([], Mentions(v, literal))
  }

  predicate Distinct<T(==)>(s: seq<T>) {
    forall i, j :: 0 <= i < j < |s| ==> s[i] != s[j]
  }

  lemma {:induction false} OntoIsDistinct(found: seq<Address>, more: seq<Address>)
    requires Distinct(found)
    ensures Distinct(Onto(found, more))
    ensures forall a :: a in Onto(found, more) <==> a in found || a in more
    decreases |more|
  {
    if more != [] {
      OntoIsDistinct(if more[0] in found then found else found + [more[0]], more[1..]);
      assert more == [more[0]] + more[1..];
    }
  }

  lemma {:induction false} OntoInParts(found: seq<Address>, a: seq<Address>, b: seq<Address>)
    ensures Onto(found, a + b) == Onto(Onto(found, a), b)
    decreases |a|
  {
    if a == [] {
      assert a + b == b;
    } else {
      assert (a + b)[1..] == a[1..] + b;
      OntoInParts(if a[0] in found then found else found + [a[0]], a[1..], b);
    }
  }

  /** What a stack of values still has to say, top first. */
  function Pending(stack: seq<Value>, literal: bool): seq<Address> {
    if stack == [] then [] else Mentions(stack[|stack| - 1], literal) + Pending(stack[..|stack| - 1], literal)
  }

  function Reversed(vs: seq<Value>): seq<Value> {
    if vs == [] then [] else Reversed(vs[1..]) + [vs[0]]
  }

  lemma {:induction false} PushedInOrder(stack: seq<Value>, vs: seq<Value>, literal: bool)
    ensures Pending(stack + Reversed(vs), literal) == MentionsIn(vs, literal) + Pending(stack, literal)
    decreases |vs|
  {
    hide Mentions;
    if vs == [] {
      assert stack + Reversed(vs) == stack;
    } else {
      LastPushed(stack, vs);
      PushedInOrder(stack, vs[1..], literal);
      Regroup(Mentions(vs[0], literal), MentionsIn(vs[1..], literal), Pending(stack, literal));
    }
  }

  lemma LastPushed(stack: seq<Value>, vs: seq<Value>)
    requires vs != []
    ensures var all := stack + Reversed(vs);
      all != [] && all[..|all| - 1] == stack + Reversed(vs[1..]) && all[|all| - 1] == vs[0]
  {
    Regroup(stack, Reversed(vs[1..]), [vs[0]]);
  }

  function Size(v: Value): nat
    decreases v, 1
  {
    1 + match v case List(items) => SizeIn(items) case Dict(values) => SizeIn(values) case _ => 0
  }

  function SizeIn(vs: seq<Value>): nat
    decreases vs, 0
  {
    if vs == [] then 0 else Size(vs[0]) + SizeIn(vs[1..])
  }

  function StackSize(stack: seq<Value>): nat {
    if stack == [] then 0 else Size(stack[|stack| - 1]) + StackSize(stack[..|stack| - 1])
  }

  lemma {:induction false} PushedSize(stack: seq<Value>, vs: seq<Value>)
    ensures StackSize(stack + Reversed(vs)) == SizeIn(vs) + StackSize(stack)
    decreases |vs|
  {
    if vs == [] {
      assert stack + Reversed(vs) == stack;
    } else {
      LastPushed(stack, vs);
      PushedSize(stack, vs[1..]);
    }
  }

  method Extend(found: seq<Address>, more: seq<Address>) returns (r: seq<Address>)
    ensures r == Onto(found, more)
  {
    r := found;
    for i := 0 to |more|
      invariant Onto(r, more[i..]) == Onto(found, more)
    {
      if more[i] !in r { r := r + [more[i]]; }
      assert more[i..][1..] == more[i + 1..];
    }
  }

  /** The traversal with an explicit stack finds the first mentions in document order. */
  method CollectReferences(v: Value, literal: bool) returns (found: seq<Address>)
    ensures found == References(v, literal) && Distinct(found)
    ensures forall a :: a in found <==> a in Mentions(v, literal)
  {
    found := [];
    var pending := [v];
    assert Pending([v], literal) == Mentions(v, literal) by { assert [v][..0] == []; }
    while pending != []
      invariant Onto(found, Pending(pending, literal)) == References(v, literal)
      decreases StackSize(pending)
    {
      var node := pending[|pending| - 1];
      ghost var rest := pending[..|pending| - 1];
      pending := pending[..|pending| - 1];
      OntoInParts(found, Mentions(node, literal), Pending(rest, literal));
      match node {
        case PolicyText(a) => found := Extend(found, a);
        case Text(a) => if literal { found := Extend(found, a); }
        case List(items) =>
          PushedInOrder(rest, items, literal);
          PushedSize(rest, items);
          OntoInParts(found, MentionsIn(items, literal), Pending(rest, literal));
          pending := pending + Reversed(items);
        case Dict(values) =>
          PushedInOrder(rest, values, literal);
          PushedSize(rest, values);
          OntoInParts(found, MentionsIn(values, literal), Pending(rest, literal));
          pending := pending + Reversed(values);
        case Scalar =>
      }
    }
    OntoIsDistinct([], Mentions(v, literal));
  }

  /** The value occurs somewhere in another. */
  ghost predicate Within(x: Value, v: Value)
    decreases v
  {
    || x == v
    || (v.List? && exists i :: 0 <= i < |v.items| && Within(x, v.items[i]))
    || (v.Dict? && exists i :: 0 <= i < |v.values| && Within(x, v.values[i]))
  }

  /** The string mentions the address: as a genuine reference or, where plain text counts, by its shape. */
  predicate Says(x: Value, a: Address, literal: bool) {
    (x.PolicyText? && a in x.genuine) || (literal && x.Text? && a in x.addresses)
  }

  /** An address is mentioned exactly when some string of the value mentions it, however deep. */
  lemma {:induction false} MentionsMean(v: Value, a: Address, literal: bool)
    ensures a in Mentions(v, literal) <==> exists x :: Within(x, v) && Says(x, a, literal)
    decreases v, 1
  {
    match v {
      case Text(_) => assert Within(v, v);
      case PolicyText(_) => assert Within(v, v);
      case Scalar => assert Within(v, v);
      case List(items) => MentionsInMean(items, a, literal); SomewhereIn(v, items, a, literal);
      case Dict(values) => MentionsInMean(values, a, literal); SomewhereIn(v, values, a, literal);
    }
  }

  lemma SomewhereIn(v: Value, vs: seq<Value>, a: Address, literal: bool)
    requires v == List(vs) || v == Dict(vs)
    ensures (exists x :: Within(x, v) && Says(x, a, literal))
       <==> (exists i, x :: 0 <= i < |vs| && Within(x, vs[i]) && Says(x, a, literal))
  {
    if x :| Within(x, v) && Says(x, a, literal) {
      assert x != v;
    }
    if i, x :| 0 <= i < |vs| && Within(x, vs[i]) && Says(x, a, literal) {
      assert Within(x, v);
    }
  }

  lemma {:induction false} MentionsInMean(vs: seq<Value>, a: Address, literal: bool)
    ensures a in MentionsIn(vs, literal)
       <==> exists i, x :: 0 <= i < |vs| && Within(x, vs[i]) && Says(x, a, literal)
    decreases vs, 0
  {
    if vs != [] {
      MentionsMean(vs[0], a, literal);
      MentionsInMean(vs[1..], a, literal);
      if i, x :| 0 <= i < |vs| && Within(x, vs[i]) && Says(x, a, literal) {
        if i > 0 { assert vs[1..][i - 1] == vs[i]; }
      }
      if x :| Within(x, vs[0]) && Says(x, a, literal) { assert Within(x, vs[0]); }
      if i, x :| 0 <= i < |vs| - 1 && Within(x, vs[1..][i]) && Says(x, a, literal) {
        assert Within(x, vs[i + 1]);
      }
    }
  }

  /** Mentions come in the order of the document. */
  lemma {:induction false} MentionsInOrder(a: seq<Value>, b: seq<Value>, literal: bool)
    ensures Mentions(List(a + b), literal) == Mentions(List(a), literal) + Mentions(List(b), literal)
    ensures Mentions(Dict(a + b), literal) == Mentions(Dict(a), literal) + Mentions(Dict(b), literal)
    decreases |a|
  {
    if a == [] {
      assert a + b == b;
    } else {
      assert (a + b)[1..] == a[1..] + b;
      MentionsInOrder(a[1..], b, literal);
      Regroup(Mentions(a[0], literal), MentionsIn(a[1..], literal), MentionsIn(b, literal));
    }
  }

  // ---------------------------------------------------------------- the resource index

  datatype Kind = MANAGED_POLICY | ROLE_POLICY | ROLE_ATTACHMENT | BUCKET_ACL | BUCKET_POLICY | ACCESS_BLOCK | OTHER

  datatype Resource = Resource(
    kind: Kind,
    address: Address,
    role: Value,
    bucket: Value,
    policyArn: Value,
    policy: string)

  type Source = (Address, string)

  type Table = map<Address, seq<Resource>>

  function FiledAt(t: Table, a: Address): seq<Resource> {
    if a in t then t[a] else []
  }

  /** The linear scan: resources attached to the address, in declaration order. */
  function Scan(rs: seq<Resource>, kinds: set<Kind>, role: bool, a: Address): seq<Resource> {
    if rs == [] then []
    else
      var r := rs[|rs| - 1];
      Scan(rs[..|rs| - 1], kinds, role, a)
      + if r.kind in kinds && a in References(if role then r.role else r.bucket, true) then [r] else []
  }

  function FirstManaged(rs: seq<Resource>, a: Address): Option<Resource> {
    if rs == [] then None
    else
      var earlier, r := FirstManaged(rs[..|rs| - 1], a), rs[|rs| - 1];
      if earlier.None? && r.kind == MANAGED_POLICY && r.address == a then Some(r) else earlier
  }

  const ROLE_KINDS: set<Kind> := {ROLE_POLICY, ROLE_ATTACHMENT}

  datatype ResourceIndex =
    ResourceIndex(managed: map<Address, Resource>, roles: Table, acls: Table, policies: Table, blocks: Table)

  /** Every table answers as the linear scan would. */
  ghost predicate Indexes(x: ResourceIndex, rs: seq<Resource>) {
    && ManagedOk(x.managed, rs)
    && Scans(x.roles, rs, ROLE_KINDS, true)
    && Scans(x.acls, rs, {BUCKET_ACL}, false)
    && Scans(x.policies, rs, {BUCKET_POLICY}, false)
    && Scans(x.blocks, rs, {ACCESS_BLOCK}, false)
  }

  /** The table gained the resource exactly under the addresses its attribute refers to, if its kind belongs there. */
  ghost predicate Grown(t: Table, u: Table, r: Resource, kinds: set<Kind>, role: bool) {
    forall a :: FiledAt(u, a) == FiledAt(t, a) +
      if r.kind in kinds && a in References(if role then r.role else r.bucket, true) then [r] else []
  }

  ghost predicate FiledUnder(t: Table, u: Table, r: Resource, refs: seq<Address>) {
    forall a :: FiledAt(u, a) == FiledAt(t, a) + if a in refs then [r] else []
  }

  lemma FileOne(t: Table, u: Table, r: Resource, refs: seq<Address>, k: nat)
    requires Distinct(refs) && k < |refs| && FiledUnder(t, u, r, refs[..k])
    ensures FiledUnder(t, u[refs[k] := FiledAt(u, refs[k]) + [r]], r, refs[..k + 1])
  {
    assert refs[..k + 1] == refs[..k] + [refs[k]];
    assert refs[k] !in refs[..k];
  }

  /** Files a resource under every address it refers to. */
  method File(t: Table, r: Resource, v: Value) returns (u: Table)
    ensures FiledUnder(t, u, r, References(v, true))
  {
    var refs := CollectReferences(v, true);
    u := t;
    for k := 0 to |refs|
      invariant FiledUnder(t, u, r, refs[..k])
    {
      FileOne(t, u, r, refs, k);
      u := u[refs[k] := FiledAt(u, refs[k]) + [r]];
    }
    assert refs[..|refs|] == refs;
  }

  ghost predicate ManagedOk(managed: map<Address, Resource>, rs: seq<Resource>) {
    forall a :: (if a in managed then Some(managed[a]) else None) == FirstManaged(rs, a)
  }

  ghost predicate Scans(t: Table, rs: seq<Resource>, kinds: set<Kind>, role: bool) {
    forall a :: FiledAt(t, a) == Scan(rs, kinds, role, a)
  }

  lemma ScansMore(t: Table, u: Table, rs: seq<Resource>, i: nat, kinds: set<Kind>, role: bool)
    requires i < |rs| && Scans(t, rs[..i], kinds, role) && Grown(t, u, rs[i], kinds, role)
    ensures Scans(u, rs[..i + 1], kinds, role)
  {
    assert rs[..i + 1][..i] == rs[..i];
  }

  lemma ManagedMore(m: map<Address, Resource>, rs: seq<Resource>, i: nat)
    requires i < |rs| && ManagedOk(m, rs[..i])
    ensures var r := rs[i];
            ManagedOk(if r.kind == MANAGED_POLICY && r.address !in m then m[r.address := r] else m, rs[..i + 1])
  {
    assert rs[..i + 1][..i] == rs[..i];
  }

  /** Files a resource in the one table of its kind. */
  method FileByKind(x: ResourceIndex, r: Resource) returns (y: ResourceIndex)
    ensures y.managed == if r.kind == MANAGED_POLICY && r.address !in x.managed then x.managed[r.address := r]
                         else x.managed
    ensures Grown(x.roles, y.roles, r, ROLE_KINDS, true) && Grown(x.acls, y.acls, r, {BUCKET_ACL}, false)
    ensures Grown(x.policies, y.policies, r, {BUCKET_POLICY}, false)
    ensures Grown(x.blocks, y.blocks, r, {ACCESS_BLOCK}, false)
  {
    y := x;
    if r.kind == MANAGED_POLICY {
      if r.address !in x.managed { y := x.(managed := x.managed[r.address := r]); }
    } else if r.kind in ROLE_KINDS {
      var t := File(x.roles, r, r.role);
      y := x.(roles := t);
    } else if r.kind == BUCKET_ACL {
      var t := File(x.acls, r, r.bucket);
      y := x.(acls := t);
    } else if r.kind == BUCKET_POLICY {
      var t := File(x.policies, r, r.bucket);
      y := x.(policies := t);
    } else if r.kind == ACCESS_BLOCK {
      var t := File(x.blocks, r, r.bucket);
      y := x.(blocks := t);
    }
  }

  method Build(rs: seq<Resource>) returns (x: ResourceIndex)
    ensures Indexes(x, rs)
  {
    x := ResourceIndex(map[], map[], map[], map[], map[]);
    for i := 0 to |rs|
      invariant Indexes(x, rs[..i])
    {
      var y := FileByKind(x, rs[i]);
      ManagedMore(x.managed, rs, i);
      ScansMore(x.roles, y.roles, rs, i, ROLE_KINDS, true);
      ScansMore(x.acls, y.acls, rs, i, {BUCKET_ACL}, false);
      ScansMore(x.policies, y.policies, rs, i, {BUCKET_POLICY}, false);
      ScansMore(x.blocks, y.blocks, rs, i, {ACCESS_BLOCK}, false);
      x := y;
    }
    assert rs[..|rs|] == rs;
  }

  /** The policy documents of one attached resource: its own, or those of the managed policies it names. */
  function Documents(rs: seq<Resource>, r: Resource): seq<Source> {
    if r.kind == ROLE_POLICY then [(r.address, r.policy)] else Managed(rs, References(r.policyArn, true))
  }

  function Managed(rs: seq<Resource>, refs: seq<Address>): seq<Source> {
    if refs == [] then []
    else
      var m := FirstManaged(rs, refs[|refs| - 1]);
      Managed(rs, refs[..|refs| - 1]) + if m.Some? then [(m.value.address, m.value.policy)] else []
  }

  function SourcesOf(rs: seq<Resource>, attached: seq<Resource>): seq<Source> {
    if attached == [] then []
    else SourcesOf(rs, attached[..|attached| - 1]) + Documents(rs, attached[|attached| - 1])
  }

  method ManagedSources(v: Value, ghost rs: seq<Resource>, x: ResourceIndex) returns (sources: seq<Source>)
    requires Indexes(x, rs)
    ensures sources == Managed(rs, References(v, true))
  {
    sources := [];
    var refs := CollectReferences(v, true);
    for k := 0 to |refs|
      invariant sources == Managed(rs, refs[..k])
    {
      assert refs[..k + 1][..k] == refs[..k];
      if refs[k] in x.managed {
        var m := x.managed[refs[k]];
        sources := sources + [(m.address, m.policy)];
      }
    }
    assert refs[..|refs|] == refs;
  }

  /** Looking a role up in the index gives, in order, what scanning every resource for it would give. */
  method RolePolicySources(role: Address, ghost rs: seq<Resource>, x: ResourceIndex) returns (sources: seq<Source>)
    requires Indexes(x, rs)
    ensures sources == SourcesOf(rs, Scan(rs, ROLE_KINDS, true, role))
  {
    sources := [];
    var attached := FiledAt(x.roles, role);
    for i := 0 to |attached|
      invariant sources == SourcesOf(rs, attached[..i])
    {
      var r := attached[i];
      assert attached[..i + 1][..i] == attached[..i];
      if r.kind == ROLE_POLICY {
        sources := sources + [(r.address, r.policy)];
      } else {
        var managed := ManagedSources(r.policyArn, rs, x);
        sources := sources + managed;
      }
    }
    assert attached[..|attached|] == attached;
  }

  /** A role's scan lists each resource once per declaration and only resources attached to the role. */
  lemma {:induction false} ScanIsFilter(rs: seq<Resource>, kinds: set<Kind>, role: bool, a: Address)
    ensures |Scan(rs, kinds, role, a)| <= |rs|
    ensures forall r :: r in Scan(rs, kinds, role, a) <==>
                        r in rs && r.kind in kinds && a in References(if role then r.role else r.bucket, true)
  {
    if rs != [] {
      ScanIsFilter(rs[..|rs| - 1], kinds, role, a);
      assert rs == rs[..|rs| - 1] + [rs[|rs| - 1]];
    }
  }

  /** The first declaration of a managed policy's address. */
  ghost predicate FirstDeclared(rs: seq<Resource>, m: Resource) {
    exists i :: 0 <= i < |rs| && rs[i] == m && m.kind == MANAGED_POLICY
                && forall j :: 0 <= j < i ==> rs[j].kind != MANAGED_POLICY || rs[j].address != m.address
  }

  /** No managed policy has the address. */
  predicate NoManaged(rs: seq<Resource>, a: Address) {
    forall i :: 0 <= i < |rs| ==> rs[i].kind != MANAGED_POLICY || rs[i].address != a
  }

  lemma FirstDeclaredMore(rs: seq<Resource>, last: Resource, m: Resource)
    ensures FirstDeclared(rs + [last], m) <==>
              FirstDeclared(rs, m) || (last == m && m.kind == MANAGED_POLICY && NoManaged(rs, m.address))
    ensures forall a :: NoManaged(rs + [last], a) <==>
              NoManaged(rs, a) && (last.kind != MANAGED_POLICY || last.address != a)
    ensures FirstDeclared(rs, m) ==> !NoManaged(rs, m.address)
  {
    var all := rs + [last];
    assert forall j :: 0 <= j < |rs| ==> all[j] == rs[j];
    assert all[|rs|] == last;
  }

  lemma {:induction false} FirstManagedMeans(rs: seq<Resource>, a: Address, m: Resource)
    ensures FirstManaged(rs, a) == Some(m) <==> m.address == a && FirstDeclared(rs, m)
    ensures FirstManaged(rs, a) == None <==> NoManaged(rs, a)
  {
    if rs != [] {
      var before, last := rs[..|rs| - 1], rs[|rs| - 1];
      assert rs == before + [last];
      hide FirstDeclared, NoManaged;
      FirstManagedMeans(before, a, m);
      FirstDeclaredMore(before, last, m);
      if FirstManaged(before, a).Some? {
        FirstManagedMeans(before, a, FirstManaged(before, a).value);
        FirstDeclaredMore(before, last, FirstManaged(before, a).value);
      }
    }
  }

  lemma {:induction false} ManagedMeans(rs: seq<Resource>, refs: seq<Address>, d: Source)
    ensures d in Managed(rs, refs)
       <==> exists m :: FirstDeclared(rs, m) && m.address in refs && d == (m.address, m.policy)
  {
    if refs != [] {
      var before, last := refs[..|refs| - 1], refs[|refs| - 1];
      ManagedMeans(rs, before, d);
      assert refs == before + [last];
      forall m ensures FirstManaged(rs, last) == Some(m) <==> m.address == last && FirstDeclared(rs, m) {
        FirstManagedMeans(rs, last, m);
      }
      hide FirstDeclared;
    }
  }

  lemma {:induction false} SourcesOfMean(rs: seq<Resource>, attached: seq<Resource>, d: Source)
    ensures d in SourcesOf(rs, attached) <==> exists r :: r in attached && d in Documents(rs, r)
  {
    if attached != [] {
      var before, last := attached[..|attached| - 1], attached[|attached| - 1];
      SourcesOfMean(rs, before, d);
      assert attached == before + [last];
      hide Documents;
    }
  }

  /**
   * Which documents apply to a role: those of its own policies, and of the managed policies its attachments name, by
   * their first declaration.
   */
  lemma RoleSourcesMean(rs: seq<Resource>, role: Address, d: Source)
    ensures d in SourcesOf(rs, Scan(rs, ROLE_KINDS, true, role)) <==>
      || (exists r :: r in rs && r.kind == ROLE_POLICY && role in References(r.role, true)
                      && d == (r.address, r.policy))
      || (exists r, m :: r in rs && r.kind == ROLE_ATTACHMENT && role in References(r.role, true)
                         && FirstDeclared(rs, m) && m.address in References(r.policyArn, true)
                         && d == (m.address, m.policy))
  {
    var attached := Scan(rs, ROLE_KINDS, true, role);
    ScanIsFilter(rs, ROLE_KINDS, true, role);
    SourcesOfMean(rs, attached, d);
    forall r | r in attached
      ensures d in Documents(rs, r) <==>
        if r.kind == ROLE_POLICY then d == (r.address, r.policy)
        else exists m :: FirstDeclared(rs, m) && m.address in References(r.policyArn, true)
                         && d == (m.address, m.policy)
    {
      if r.kind != ROLE_POLICY { ManagedMeans(rs, References(r.policyArn, true), d); }
    }
    hide Scan, SourcesOf, Documents, FirstDeclared, References;
  }

  /** The scan keeps the order of the declarations. */
  lemma {:induction false} ScanInOrder(a: seq<Resource>, b: seq<Resource>, kinds: set<Kind>, role: bool, to: Address)
    ensures Scan(a + b, kinds, role, to) == Scan(a, kinds, role, to) + Scan(b, kinds, role, to)
    decreases |b|
  {
    if b == [] {
      assert a + b == a;
    } else {
      assert (a + b)[..|a + b| - 1] == a + b[..|b| - 1];
      ScanInOrder(a, b[..|b| - 1], kinds, role, to);
    }
  }

  // ---------------------------------------------------------------- bucket patterns

  /** Case-sensitive glob matching: `*` for any text, `?` for any one character, the rest literal. */
  predicate Glob(s: string, p: string)
    decreases |p|, |s|
  {
    if p == [] then s == []
    else if p[0] == '*' then Glob(s, p[1..]) || (s != [] && Glob(s[1..], p))
    else s != [] && (p[0] == '?' || p[0] == s[0]) && Glob(s[1..], p[1..])
  }

  function Joined(pieces: seq<string>): string {
    if pieces == [] then "" else pieces[0] + Joined(pieces[1..])
  }

  /** What one character of a pattern stands for. */
  predicate Takes(c: char, piece: string) {
    if c == '*' then true else if c == '?' then |piece| == 1 else piece == [c]
  }

  predicate Splits(s: string, p: string, pieces: seq<string>) {
    |pieces| == |p| && Joined(pieces) == s && forall i :: 0 <= i < |p| ==> Takes(p[i], pieces[i])
  }

  /** A text matches exactly when it falls into pieces, one for every character of the pattern. */
  lemma GlobMeans(s: string, p: string)
    ensures Glob(s, p) <==> exists pieces :: Splits(s, p, pieces)
  {
    if Glob(s, p) {
      var pieces := MatchSplits(s, p);
    }
    if pieces :| Splits(s, p, pieces) {
      SplitMatches(s, p, pieces);
    }
  }

  lemma {:induction false} MatchSplits(s: string, p: string) returns (pieces: seq<string>)
    requires Glob(s, p)
    ensures Splits(s, p, pieces)
    decreases |p|, |s|
  {
    if p == [] {
      pieces := [];
    } else if p[0] == '*' && !Glob(s, p[1..]) {
      var rest := MatchSplits(s[1..], p);
      pieces := [[s[0]] + rest[0]] + rest[1..];
      Regroup([s[0]], rest[0], Joined(rest[1..]));
      assert pieces[1..] == rest[1..];
    } else {
      var first, after := if p[0] == '*' then "" else [s[0]], if p[0] == '*' then s else s[1..];
      var rest := MatchSplits(after, p[1..]);
      pieces := [first] + rest;
      assert pieces[1..] == rest;
      forall i | 0 <= i < |p| ensures Takes(p[i], pieces[i]) {
        if i > 0 { assert Takes(p[1..][i - 1], rest[i - 1]); }
      }
    }
  }

  lemma {:induction false} SplitMatches(s: string, p: string, pieces: seq<string>)
    requires Splits(s, p, pieces)
    ensures Glob(s, p)
    decreases |p|, |s|
  {
    if p != [] {
      var first, rest := pieces[0], Joined(pieces[1..]);
      forall i | 0 <= i < |p| - 1 ensures Takes(p[1..][i], pieces[1..][i]) {
        assert Takes(p[i + 1], pieces[i + 1]);
      }
      if first == "" {
        assert s == rest;
        SplitMatches(s, p[1..], pieces[1..]);
      } else {
        assert s[1..] == first[1..] + rest;
        if p[0] == '*' {
          var shorter := [first[1..]] + pieces[1..];
          assert shorter[1..] == pieces[1..];
          SplitMatches(s[1..], p, shorter);
        } else {
          assert first[1..] + rest == rest;
          SplitMatches(s[1..], p[1..], pieces[1..]);
        }
      }
    }
  }

  predicate Wildcard(c: char) {
    c == '*' || c == '?'
  }

  function SlashAt(p: string): nat
    ensures SlashAt(p) <= |p| && '/' !in p[..SlashAt(p)] && (SlashAt(p) < |p| ==> p[SlashAt(p)] == '/')
  {
    if p == [] || p[0] == '/' then 0
    else
      assert p[..1 + SlashAt(p[1..])] == [p[0]] + p[1..][..SlashAt(p[1..])];
      1 + SlashAt(p[1..])
  }

  /** The pattern's part before its first slash matches the bucket and something follows the slash. */
  predicate SplitAccepts(arn: string, p: string) {
    var n := SlashAt(p);
    n < |p| - 1 && Glob(arn, p[..n])
  }

  /** What the split stands for: some nonempty object key of the bucket matches the whole pattern. */
  ghost predicate MatchesSomeObject(arn: string, p: string) {
    exists key :: key != "" && Glob(arn + "/" + key, p)
  }

  lemma {:induction false} GlobConcat(s: string, t: string, p: string, q: string)
    requires Glob(s, p) && Glob(t, q)
    ensures Glob(s + t, p + q)
    decreases |p|, |s|
  {
    if p == [] {
      assert s + t == t && p + q == q;
    } else {
      assert (p + q)[1..] == p[1..] + q;
      if p[0] == '*' {
        if Glob(s, p[1..]) {
          GlobConcat(s, t, p[1..], q);
        } else {
          assert (s + t)[1..] == s[1..] + t;
          GlobConcat(s[1..], t, p, q);
        }
      } else {
        assert (s + t)[1..] == s[1..] + t;
        GlobConcat(s[1..], t, p[1..], q);
      }
    }
  }

  /** A nonempty text matching a nonempty pattern: a letter for every wildcard. */
  function Sample(p: string): string {
    if p == [] then "" else [if Wildcard(p[0]) then 'x' else p[0]] + Sample(p[1..])
  }

  lemma {:induction false} SampleMatches(p: string)
    ensures |Sample(p)| == |p| && Glob(Sample(p), p)
  {
    if p != [] {
      SampleMatches(p[1..]);
      var s := Sample(p);
      assert s[1..] == Sample(p[1..]);
      if p[0] == '*' { StarSkips(s, p); }
    }
  }

  lemma StarSkips(s: string, p: string)
    requires s != [] && p != [] && p[0] == '*' && Glob(s[1..], p[1..])
    ensures Glob(s, p)
  {
    assert Glob(s[1..], p);
  }

  /** The split never over-reports: an accepted pattern matches some object of the bucket. */
  lemma SplitIsSound(arn: string, p: string)
    requires SplitAccepts(arn, p)
    ensures MatchesSomeObject(arn, p)
  {
    var n := SlashAt(p);
    var key := Sample(p[n + 1..]);
    SampleMatches(p[n + 1..]);
    assert Glob("/" + key, "/" + p[n + 1..]) by {
      assert ("/" + key)[1..] == key && ("/" + p[n + 1..])[1..] == p[n + 1..];
    }
    GlobConcat(arn, "/" + key, p[..n], "/" + p[n + 1..]);
    assert p == p[..n] + ("/" + p[n + 1..]) && arn + "/" + key == arn + ("/" + key);
  }

  // ---------------------------------------------------------------- what the split misses

  /** The bucket's name may end, and the slash after it be matched, at this place of the pattern. */
  predicate BoundaryAt(arn: string, p: string, n: nat) {
    n < |p| &&
    (|| (p[n] == '*' && Glob(arn, p[..n + 1]))
     || ((p[n] == '?' || p[n] == '/') && n + 1 < |p| && Glob(arn, p[..n])))
  }

  lemma {:induction false} StarTakesAll(s: string)
    ensures Glob(s, "*")
  {
    if s != "" {
      StarTakesAll(s[1..]);
    } else {
      assert "*"[1..] == "";
    }
  }

  /** A final star takes whatever is appended. */
  lemma {:induction false} FinalStarTakesMore(s: string, t: string, p: string)
    requires p != "" && p[|p| - 1] == '*' && Glob(s, p)
    ensures Glob(s + t, p)
    decreases |p|, |s|
  {
    if |p| == 1 {
      assert p == "*";
      StarTakesAll(s + t);
    } else if p[0] == '*' && Glob(s, p[1..]) {
      FinalStarTakesMore(s, t, p[1..]);
    } else {
      assert (s + t)[1..] == s[1..] + t;
      FinalStarTakesMore(s[1..], t, if p[0] == '*' then p else p[1..]);
    }
  }

  lemma StarGivesObject(arn: string, upto: string, rest: string)
    requires upto != "" && upto[|upto| - 1] == '*' && Glob(arn, upto)
    ensures MatchesSomeObject(arn, upto + rest)
  {
    var key := "x" + Sample(rest);
    SampleMatches(rest);
    FinalStarTakesMore(arn, "/x", upto);
    hide Glob, Sample;
    GlobConcat(arn + "/x", Sample(rest), upto, rest);
    assert arn + "/x" + Sample(rest) == arn + "/" + key;
  }

  lemma SlashGivesObject(arn: string, before: string, rest: string, c: char)
    requires (c == '?' || c == '/') && rest != "" && Glob(arn, before)
    ensures MatchesSomeObject(arn, before + ([c] + rest))
  {
    var key := Sample(rest);
    SampleMatches(rest);
    assert ("/" + key)[1..] == key && ([c] + rest)[1..] == rest;
    assert Glob("/" + key, [c] + rest);
    hide Glob, Sample;
    GlobConcat(arn, "/" + key, before, [c] + rest);
    Regroup(arn, "/", key);
  }

  /** Every such place gives an object that the whole pattern matches. */
  lemma BoundaryGivesObject(arn: string, p: string, n: nat)
    requires BoundaryAt(arn, p, n)
    ensures MatchesSomeObject(arn, p)
  {
    hide Glob, MatchesSomeObject;
    if p[n] == '*' && Glob(arn, p[..n + 1]) {
      StarGivesObject(arn, p[..n + 1], p[n + 1..]);
      assert p[..n + 1] + p[n + 1..] == p;
    } else {
      SlashGivesObject(arn, p[..n], p[n + 1..], p[n]);
      assert p[..n] + ([p[n]] + p[n + 1..]) == p;
    }
  }

  /** Where a pattern splits when the text does: at a place, or inside a star that takes part of both halves. */
  predicate SplitsAt(s: string, t: string, p: string, n: nat, inStar: bool) {
    && n <= |p|
    && (if inStar then n < |p| && p[n] == '*' && Glob(s, p[..n + 1]) else Glob(s, p[..n]))
    && Glob(t, p[n..])
  }

  lemma {:induction false} GlobSplit(s: string, t: string, p: string) returns (n: nat, inStar: bool)
    requires Glob(s + t, p)
    ensures SplitsAt(s, t, p, n, inStar)
    decreases |p|, |s|
  {
    if s == "" {
      n, inStar := 0, false;
      assert s + t == t && p[0..] == p;
    } else if p[0] == '*' && !Glob(s + t, p[1..]) {
      assert (s + t)[1..] == s[1..] + t;
      n, inStar := GlobSplit(s[1..], t, p);
      if n == 0 {
        inStar := true;
        assert p[..1] == "*";
        StarTakesAll(s);
      } else {
        assert p[..n][0] == '*' && (inStar ==> p[..n + 1][0] == '*');
      }
    } else {
      assert (s + t)[1..] == s[1..] + t;
      n, inStar := GlobSplit(if p[0] == '*' then s else s[1..], t, p[1..]);
      assert p[1..][..n] == p[..n + 1][1..] && p[1..][n..] == p[n + 1..];
      assert inStar ==> p[1..][..n + 1] == p[..n + 2][1..];
      n := n + 1;
    }
  }

  lemma SlashIsMatchedSomewhere(arn: string, key: string, p: string) returns (n: nat)
    requires key != "" && Glob(arn + "/" + key, p)
    ensures BoundaryAt(arn, p, n)
  {
    Regroup(arn, "/", key);
    var inStar;
    n, inStar := GlobSplit(arn, "/" + key, p);
    ghost var rest := p[n..];
    assert Glob("/" + key, rest) && ("/" + key)[1..] == key;
    assert rest != "";
    assert rest[0] == p[n] && rest[1..] == p[n + 1..];
    if !inStar && p[n] == '*' {
      StarTakesAll("");
      GlobConcat(arn, "", p[..n], "*");
      assert p[..n] + "*" == p[..n + 1] && arn + "" == arn;
    } else if !inStar {
      assert ("/" + key)[0] == '/' && Glob(key, rest[1..]);
      assert rest[1..] != "";
    }
  }

  /** A pattern matches some object of the bucket exactly when it has such a place. */
  lemma ObjectsNeedABoundary(arn: string, p: string)
    ensures MatchesSomeObject(arn, p) <==> exists n: nat :: BoundaryAt(arn, p, n)
  {
    if n: nat :| BoundaryAt(arn, p, n) {
      BoundaryGivesObject(arn, p, n);
    }
    if key :| key != "" && Glob(arn + "/" + key, p) {
      var n := SlashIsMatchedSomewhere(arn, key, p);
    }
  }

  lemma {:induction false} SlashesAreLiteral(s: string, p: string)
    requires Glob(s, p) && '/' in p
    ensures '/' in s
    decreases |p|, |s|
  {
    if p[0] == '*' {
      assert p == [p[0]] + p[1..];
      if Glob(s, p[1..]) {
        SlashesAreLiteral(s, p[1..]);
      } else {
        SlashesAreLiteral(s[1..], p);
      }
    } else if p[0] != '/' {
      assert p == [p[0]] + p[1..];
      SlashesAreLiteral(s[1..], p[1..]);
    }
  }

  /** A place the split does not see: at a wildcard, or at a slash after the pattern's first. */
  predicate Unseen(arn: string, p: string, n: nat) {
    BoundaryAt(arn, p, n) && (Wildcard(p[n]) || SlashAt(p) < n)
  }

  /** What the split misses: the slash matched somewhere, but never by the pattern's own first slash. */
  lemma SplitMissesExactly(arn: string, p: string)
    ensures MatchesSomeObject(arn, p) && !SplitAccepts(arn, p) <==>
            && (exists n: nat :: Unseen(arn, p, n))
            && forall n: nat :: BoundaryAt(arn, p, n) ==> Unseen(arn, p, n)
  {
    ObjectsNeedABoundary(arn, p);
    OthersAreUnseen(arn, p);
  }

  lemma OthersAreUnseen(arn: string, p: string)
    ensures forall n: nat :: BoundaryAt(arn, p, n) && n != SlashAt(p) ==> Unseen(arn, p, n)
    ensures !Unseen(arn, p, SlashAt(p))
  {
    var before := p[..SlashAt(p)];
    assert forall i :: 0 <= i < |before| ==> p[i] == before[i] && before[i] in before;
  }

  /** For a name without slashes, as AWS has them, only a wildcard can be such a place. */
  lemma SlashFreeNamesNeedWildcards(arn: string, p: string, n: nat)
    requires '/' !in arn && Unseen(arn, p, n)
    ensures Wildcard(p[n]) && n < SlashAt(p)
  {
    var upto := if p[n] == '*' && Glob(arn, p[..n + 1]) then p[..n + 1] else p[..n];
    if SlashAt(p) < n {
      assert upto[SlashAt(p)] == '/';
      SlashesAreLiteral(arn, upto);
    }
  }

  lemma FinalStarIsMissed()
    ensures MatchesSomeObject("b", "b*") && !SplitAccepts("b", "b*")
  {
    assert Glob("b" + "/" + "k", "b*") by {
      assert "b/k"[1..] == "/k" && "b*"[1..] == "*" && "*"[1..] == "";
      assert "/k"[1..] == "k" && "k"[1..] == "";
      assert Glob("", "*") && Glob("k", "*") && Glob("/k", "*");
    }
    assert SlashAt("b*") == 2 by { assert "b*"[1..] == "*" && "*"[1..] == ""; }
  }

  lemma InnerStarIsMissed()
    ensures MatchesSomeObject("ab", "a*c/d") && !SplitAccepts("ab", "a*c/d")
  {
    var pieces := ["a", "b/", "c", "/", "d"];
    assert pieces[4..][1..] == [] && pieces[3..][1..] == pieces[4..] && pieces[2..][1..] == pieces[3..];
    assert pieces[1..][1..] == pieces[2..];
    assert Joined(pieces[4..]) == "d";
    assert Joined(pieces[3..]) == "/" + "d";
    assert Joined(pieces[2..]) == "c" + ("/" + "d");
    assert Joined(pieces[1..]) == "b/" + ("c" + ("/" + "d"));
    assert Joined(pieces) == "a" + ("b/" + ("c" + ("/" + "d")));
    assert "a" + ("b/" + ("c" + ("/" + "d"))) == "ab" + "/" + "c/d";
    assert Splits("ab" + "/" + "c/d", "a*c/d", pieces);
    GlobMeans("ab" + "/" + "c/d", "a*c/d");
    assert SlashAt("a*c/d") == 3 by {
      assert "a*c/d"[1..] == "*c/d" && "*c/d"[1..] == "c/d" && "c/d"[1..] == "/d";
    }
    assert "a*c/d"[..3] == "a*c";
    assert !Glob("ab", "a*c") by {
      assert "ab"[1..] == "b" && "a*c"[1..] == "*c" && "*c"[1..] == "c" && "b"[1..] == "";
      assert !Glob("b", "c") && !Glob("", "c") && !Glob("", "*c");
    }
  }

  /** Wildcards before the first slash can cross it, which the split does not see. */
  lemma SplitMissesCrossingWildcards()
    ensures MatchesSomeObject("b", "b*") && !SplitAccepts("b", "b*")
    ensures MatchesSomeObject("ab", "a*c/d") && !SplitAccepts("ab", "a*c/d")
  {
    hide *;
    FinalStarIsMissed();
    InnerStarIsMissed();
  }

  /** A policy resource with the bucket a genuine reference in its ARN position names, if any. */
  datatype Pattern = Pattern(text: string, target: Option<(Address, bool)>)

  /** A bucket's address and the ARNs it is known by. */
  datatype Bucket = Bucket(address: Address, arns: seq<string>)

  predicate Accepts(p: Pattern, b: Bucket, objectsOnly: bool) {
    || p.text == "*"
    || (p.target.Some? && p.target.value.0 == b.address && (!objectsOnly || p.target.value.1))
    || exists arn :: arn in b.arns && ((!objectsOnly && Glob(arn, p.text)) || SplitAccepts(arn, p.text))
  }

  method BucketResourceMatches(patterns: seq<Pattern>, b: Bucket, objectsOnly: bool) returns (matched: bool)
    ensures matched <==> exists p :: p in patterns && Accepts(p, b, objectsOnly)
    ensures matched && (forall p :: p in patterns ==> p.text != "*" && p.target.None?) ==>
              exists p, arn :: p in patterns && arn in b.arns
                               && (MatchesSomeObject(arn, p.text) || (!objectsOnly && Glob(arn, p.text)))
  {
    for i := 0 to |patterns|
      invariant forall p :: p in patterns[..i] ==> !Accepts(p, b, objectsOnly)
    {
      var p := patterns[i];
      assert p in patterns && patterns[..i + 1] == patterns[..i] + [p];
      if p.text == "*" { return true; }
      if p.target.Some? && p.target.value.0 == b.address && (!objectsOnly || p.target.value.1) { return true; }
      for k := 0 to |b.arns|
        invariant forall arn :: arn in b.arns[..k] ==>
                    !(!objectsOnly && Glob(arn, p.text)) && !SplitAccepts(arn, p.text)
      {
        var arn := b.arns[k];
        assert arn in b.arns && b.arns[..k + 1] == b.arns[..k] + [arn];
        if !objectsOnly && Glob(arn, p.text) { return true; }
        if SplitAccepts(arn, p.text) {
          SplitIsSound(arn, p.text);
          return true;
        }
      }
      assert b.arns[..|b.arns|] == b.arns;
    }
    assert patterns[..|patterns|] == patterns;
    matched := false;
  }

  /** The pattern matches some object of the bucket. */
  ghost predicate MatchesObjectOf(p: Pattern, b: Bucket) {
    exists arn :: arn in b.arns && MatchesSomeObject(arn, p.text)
  }

  /** In some of the bucket's names, the slash can be matched at a place of the pattern. */
  ghost predicate Crosses(p: Pattern, b: Bucket) {
    exists arn, n: nat :: arn in b.arns && BoundaryAt(arn, p.text, n)
  }

  /** The split sees none of these places. */
  ghost predicate OnlyUnseen(p: Pattern, b: Bucket) {
    forall arn, n: nat :: arn in b.arns && BoundaryAt(arn, p.text, n) ==> Unseen(arn, p.text, n)
  }

  /** Neither everything, nor a genuine reference to the bucket, nor a pattern for the bucket itself. */
  predicate NamesNoBucket(p: Pattern, b: Bucket, objectsOnly: bool) {
    && p.text != "*"
    && !(p.target.Some? && p.target.value.0 == b.address && (!objectsOnly || p.target.value.1))
    && (objectsOnly || forall arn :: arn in b.arns ==> !Glob(arn, p.text))
  }

  /** What the method's answer for one pattern, and the truth about it, come to. */
  lemma PatternMeans(p: Pattern, b: Bucket, objectsOnly: bool)
    ensures !Accepts(p, b, objectsOnly) <==> NamesNoBucket(p, b, objectsOnly) && OnlyUnseen(p, b)
    ensures MatchesObjectOf(p, b) <==> Crosses(p, b)
  {
    forall arn | arn in b.arns
      ensures SplitAccepts(arn, p.text) <==> BoundaryAt(arn, p.text, SlashAt(p.text))
      ensures MatchesSomeObject(arn, p.text) <==> exists n: nat :: BoundaryAt(arn, p.text, n)
      ensures forall n: nat :: BoundaryAt(arn, p.text, n) && n != SlashAt(p.text) ==> Unseen(arn, p.text, n)
      ensures !Unseen(arn, p.text, SlashAt(p.text))
    {
      ObjectsNeedABoundary(arn, p.text);
      OthersAreUnseen(arn, p.text);
    }
    hide Glob, BoundaryAt, SplitAccepts, MatchesSomeObject, Unseen;
  }

  /** Exactly which patterns match an object of the bucket and are not accepted for it. */
  lemma PatternIsMissedExactly(p: Pattern, b: Bucket, objectsOnly: bool)
    ensures MatchesObjectOf(p, b) && !Accepts(p, b, objectsOnly) <==>
              Crosses(p, b) && OnlyUnseen(p, b) && NamesNoBucket(p, b, objectsOnly)
  {
    PatternMeans(p, b, objectsOnly);
    hide MatchesObjectOf, Accepts, Crosses, OnlyUnseen;
  }

  /** The method answers false although a pattern matches an object exactly when each is missed or matches none. */
  lemma BucketIsMissedExactly(patterns: seq<Pattern>, b: Bucket, objectsOnly: bool)
    ensures (forall p :: p in patterns ==> !Accepts(p, b, objectsOnly))
            && (exists p :: p in patterns && MatchesObjectOf(p, b))
       <==> (forall p :: p in patterns ==> NamesNoBucket(p, b, objectsOnly) && OnlyUnseen(p, b))
            && (exists p :: p in patterns && Crosses(p, b))
  {
    forall p | p in patterns
      ensures !Accepts(p, b, objectsOnly) <==> NamesNoBucket(p, b, objectsOnly) && OnlyUnseen(p, b)
      ensures MatchesObjectOf(p, b) <==> Crosses(p, b)
    {
      PatternMeans(p, b, objectsOnly);
    }
    hide MatchesObjectOf, Accepts, Crosses, OnlyUnseen;
  }

  /** A public grant on a prefix of the bucket's name is missed when only objects count. */
  lemma PublicPrefixIsMissed(b: Bucket, prefix: string, arn: string)
    requires prefix != "" && '/' !in prefix && arn in b.arns && Glob(arn, prefix + "*")
    ensures var p := Pattern(prefix + "*", None);
      MatchesObjectOf(p, b) && !Accepts(p, b, true)
  {
    var text := prefix + "*";
    assert text[|prefix|] == '*' && text[..|prefix| + 1] == text;
    assert BoundaryAt(arn, text, |prefix|);
    BoundaryGivesObject(arn, text, |prefix|);
    assert '/' !in text;
    assert SlashAt(text) == |text|;
  }
}
