/** An evaluation that reports no problem understood everything: its value is what some expression means. */
module ExpressionCleanReads {
  import opened Expression
  import opened ExpressionPrinter
  import opened ExpressionTokens
  import opened ExpressionRoundTrip
  import opened Sequences

  // ---------------------------------------------------------------- problems are never taken back

  predicate Grows<T>(s: Reader, r: Parse<T>) {
    r.Done? ==> s.problems <= r.rest.problems
  }

  predicate Clean<T>(s: Reader, r: Parse<T>) {
    r.Done? && r.rest.problems == s.problems
  }

  lemma {:induction false} CharsGrow(s: Reader, out: string, addresses: seq<string>)
    ensures Grows(s, ParseChars(s, out, addresses))
    decreases |s.text|
  {
    if s.text != "" {
      var ch, t := s.text[0], s.Drop(1);
      if ch == '"' {
      } else if ch == '\\' {
        if ParseEscape(t).Done? {
          CharsGrow(ParseEscape(t).rest, out + [ParseEscape(t).value], addresses);
        }
      } else if IsMarker(ch) && [ch, '{'] <= t.text {
        CharsGrow(t.Drop(2), out + [ch, '{'], addresses);
      } else if IsMarker(ch) && t.StartsWith('{') {
        var r := ParseTemplate(t.Drop(1), ch);
        if r.Done? {
          CharsGrow(r.rest, out + r.value.0, addresses + r.value.1);
        }
      } else {
        CharsGrow(t, out + [ch], addresses);
      }
    }
  }

  lemma {:induction false} CallsGrow(s: Reader, depth: nat)
    requires depth > 0
    ensures Grows(s, SkipCall(s, depth))
    decreases |s.text|
  {
    hide ParseChars;
    if s.StartsWith('"') {
      CharsGrow(s.Drop(1), "", []);
      var r := ParseChars(s.Drop(1), "", []);
      if r.Done? {
        CallsGrow(r.rest, depth);
      }
    } else if s.StartsWith('(') {
      CallsGrow(s.Drop(1), depth + 1);
    } else if s.StartsWith(')') {
      if depth > 1 {
        CallsGrow(s.Drop(1), depth - 1);
      }
    } else if s.text != "" {
      CallsGrow(s.Drop(1), depth);
    }
  }

  lemma WordsGrow(s: Reader)
    requires IdentLength(s.text) > 0
    ensures Grows(s, ParseWord(s))
  {
    hide SkipCall, TailsLength, TraversalAddresses, IdentLength;
    var u := SkipWs(s.Drop(IdentLength(s.text)));
    if u.StartsWith('(') {
      CallsGrow(u.Drop(1), 1);
    }
  }

  lemma KeysGrow(s: Reader)
    ensures Grows(s, ParseKey(s))
  {
    hide ParseChars;
    if s.StartsWith('"') {
      CharsGrow(s.Drop(1), "", []);
    }
  }

  lemma {:induction false} ValuesGrow(s: Reader, depth: nat)
    ensures Grows(s, ParseValue(s, depth))
    decreases |s.text|, 0
  {
    hide ParseItems, ParseMembers, ParseChars, ParseNumber, ParseWord, IdentLength;
    if s.nodes + 1 <= MAX_EXPR_NODES && depth <= MAX_EXPR_DEPTH {
      var t := SkipWs(s.(nodes := s.nodes + 1));
      if t.StartsWith('{') {
        MembersGrow(t.Drop(1), depth, []);
      } else if t.StartsWith('[') {
        ItemsGrow(t.Drop(1), depth, []);
      } else if t.StartsWith('"') {
        CharsGrow(t.Drop(1), "", []);
      } else if t.text != "" && (IsDigit(t.text[0]) || t.StartsWith('-')) {
        NumbersKeep(t);
      } else if IdentLength(t.text) > 0 {
        WordsGrow(t);
      }
    }
  }

  lemma NumbersKeep(s: Reader)
    ensures ParseNumber(s).Done? ==> ParseNumber(s).rest.problems == s.problems
  {
    hide IntegerLength, NumberLength;
  }

  lemma {:induction false} MembersGrow(s: Reader, depth: nat, members: seq<(string, Value)>)
    requires s.nodes <= MAX_EXPR_NODES
    ensures Grows(s, ParseMembers(s, depth, members))
    decreases |s.text|, 1
  {
    hide ParseValue, ParseKey, Put;
    var t := SkipWs(s);
    if !t.StartsWith('}') && ParseKey(t).Done? {
      KeysGrow(t);
      var w := SkipWs(ParseKey(t).rest);
      if w.StartsWith('=') {
        ValuesGrow(w.Drop(1), depth + 1);
        var v := ParseValue(w.Drop(1), depth + 1);
        if v.Done? {
          MembersGrow(Comma(SkipWs(v.rest)), depth, Put(members, ParseKey(t).value, v.value));
        }
      }
    }
  }

  lemma {:induction false} ItemsGrow(s: Reader, depth: nat, items: seq<Value>)
    requires s.nodes <= MAX_EXPR_NODES
    ensures Grows(s, ParseItems(s, depth, items))
    decreases |s.text|, 1
  {
    hide ParseValue;
    var t := SkipWs(s);
    if !t.StartsWith(']') {
      ValuesGrow(t, depth + 1);
      var v := ParseValue(t, depth + 1);
      if v.Done? {
        ItemsGrow(Comma(SkipWs(v.rest)), depth, items + [v.value]);
      }
    }
  }

  // ---------------------------------------------------------------- traversals and strings

  /** The steps a text opens with. */
  function TailsOf(s: string): (tails: seq<Tail>)
    ensures (tails == []) == (TailsLength(s) == 0)
  {
    var n := TailLength(s);
    if n == 0 then []
    else [if s[0] == '.' then Attr(s[1..n]) else Index(s[1..n - 1])] + TailsOf(s[n..])
  }

  lemma AttrIsOne(s: string)
    requires s != "" && s[0] == '.' && TailLength(s) > 0
    ensures var name := s[1..TailLength(s)];
      IsIdentifier(name) && "." + name == s[..TailLength(s)]
  {
    var n := TailLength(s);
    SpanHolds(s[1..], IsPart);
    assert forall i :: 0 <= i < n - 1 ==> s[1..n][i] == s[1..][i];
  }

  lemma IndexIsOne(s: string)
    requires s != "" && s[0] != '.' && TailLength(s) > 0
    ensures var digits := s[1..TailLength(s) - 1];
      && digits != "" && (forall i :: 0 <= i < |digits| ==> IsDigit(digits[i]))
      && "[" + digits + "]" == s[..TailLength(s)]
  {
    var n := TailLength(s);
    SpanHolds(s[1..], IsDigit);
    assert forall i :: 0 <= i < n - 2 ==> s[1..n - 1][i] == s[1..][i];
  }

  lemma TailIsOne(s: string)
    requires TailLength(s) > 0
    ensures WellFormedTail(TailsOf(s)[0]) && TailText(TailsOf(s)[0]) == s[..TailLength(s)]
  {
    if s[0] == '.' {
      AttrIsOne(s);
    } else {
      IndexIsOne(s);
    }
    hide TailLength;
  }

  lemma TwoSteps(s: string, n: nat, m: nat)
    requires n + m <= |s|
    ensures s[..n] + s[n..][..m] == s[..n + m]
  {
  }

  lemma {:induction false} TailsAreOnes(s: string)
    ensures WellFormedTails(TailsOf(s)) && TailsText(TailsOf(s)) == s[..TailsLength(s)]
  {
    hide TailLength, WellFormedTail, TailText;
    var n := TailLength(s);
    if n > 0 {
      TailIsOne(s);
      TailsAreOnes(s[n..]);
      TwoSteps(s, n, TailsLength(s[n..]));
    }
  }

  /** A name and the steps after it. */
  function TraversalOf(name: string, tails: string): Traversal {
    Traversal(name, TailsOf(tails))
  }

  /** No step starts with a character of the provider prefix. */
  lemma PrefixIsInName(name: string, steps: string)
    requires "aws_" <= name + steps && Ends(steps, IsPart)
    ensures "aws_" <= name
  {
    var all := name + steps;
    assert forall i :: 0 <= i < 4 ==> all[i] == "aws_"[i] && IsPart(all[i]);
    assert steps != "" ==> steps[0] == all[|name|];
  }

  lemma TraversalIsOne(name: string, tails: string)
    requires IsIdentifier(name)
    requires "aws_" <= name + tails[..TailsLength(tails)]
    ensures WellFormedTraversal(TraversalOf(name, tails))
    ensures TraversalText(TraversalOf(name, tails)) == name + tails[..TailsLength(tails)]
  {
    TailsAreOnes(tails);
    PrefixIsInName(name, tails[..TailsLength(tails)]);
  }

  lemma AwsTraversalIsOne(body: string) returns (t: Traversal)
    requires IsAwsTraversal(body)
    ensures WellFormedTraversal(t) && t.tails != [] && TraversalText(t) == body
    ensures Addresses(t) == TraversalAddresses(body)
  {
    var n := Span(body, IsPart);
    SpanHolds(body, IsPart);
    assert body[0] == 'a';
    assert body[..n] + body[n..] == body;
    assert body[n..][..|body| - n] == body[n..];
    t := TraversalOf(body[..n], body[n..]);
    TraversalIsOne(body[..n], body[n..]);
    AddressesAreRead(t);
  }

  lemma TemplateMeans(s: Reader, marker: char) returns (t: Traversal)
    requires Clean(s, ParseTemplate(s, marker))
    ensures WellFormedPart(Ref(t))
    ensures ParseTemplate(s, marker).value == (PartText(Ref(t)), Addresses(t))
  {
    hide IsAwsTraversal, TraversalAddresses, Strip;
    t := AwsTraversalIsOne(Strip(s.text[..Find(s.text, '}')]));
  }

  predicate StringMeans(r: Parse<Value>, out: string, addresses: seq<string>, parts: seq<Part>)
    requires WellFormedParts(parts)
  {
    r.Done? && r.value == Str(out + PartsText(parts), Dedup(addresses + PartsAddresses(parts)))
  }

  lemma OnePartMore(r: Parse<Value>, out: string, addresses: seq<string>, p: Part, parts: seq<Part>)
    requires WellFormedPart(p) && WellFormedParts(parts)
    requires StringMeans(r, out + PartText(p), addresses + PartAddresses(p), parts)
    ensures WellFormedParts([p] + parts) && StringMeans(r, out, addresses, [p] + parts)
  {
    hide PartText, PartAddresses, WellFormedPart;
    var all := [p] + parts;
    assert all[1..] == parts && all[0] == p;
    assert PartsText(all) == PartText(p) + PartsText(parts);
    assert PartsAddresses(all) == PartAddresses(p) + PartsAddresses(parts);
    Regroup(out, PartText(p), PartsText(parts));
    Regroup(addresses, PartAddresses(p), PartsAddresses(parts));
  }

  lemma OneCharMore(r: Parse<Value>, out: string, addresses: seq<string>, c: char, parts: seq<Part>)
    requires WellFormedParts(parts) && StringMeans(r, out + [c], addresses, parts)
    ensures WellFormedParts([Char(c)] + parts) && StringMeans(r, out, addresses, [Char(c)] + parts)
  {
    assert addresses + [] == addresses;
    OnePartMore(r, out, addresses, Char(c), parts);
  }

  lemma {:induction false} StringsMean(s: Reader, out: string, addresses: seq<string>) returns (parts: seq<Part>)
    requires Clean(s, ParseChars(s, out, addresses))
    ensures WellFormedParts(parts) && StringMeans(ParseChars(s, out, addresses), out, addresses, parts)
    decreases |s.text|
  {
    var r := ParseChars(s, out, addresses);
    var ch, t := s.text[0], s.Drop(1);
    if ch == '"' {
      parts := [];
      assert out + "" == out && addresses + [] == addresses;
    } else if ch == '\\' {
      var c := ParseEscape(t);
      var others := StringsMean(c.rest, out + [c.value], addresses);
      parts := [Char(c.value)] + others;
      OneCharMore(r, out, addresses, c.value, others);
    } else if IsMarker(ch) && [ch, '{'] <= t.text {
      assert out + [ch, '{'] == out + [ch] + ['{'];
      var others := StringsMean(t.Drop(2), out + [ch, '{'], addresses);
      OneCharMore(r, out + [ch], addresses, '{', others);
      parts := [Char(ch)] + ([Char('{')] + others);
      OneCharMore(r, out, addresses, ch, [Char('{')] + others);
    } else if IsMarker(ch) && t.StartsWith('{') {
      parts := TemplateThenMeans(s, out, addresses);
    } else {
      var others := StringsMean(t, out + [ch], addresses);
      parts := [Char(ch)] + others;
      OneCharMore(r, out, addresses, ch, others);
    }
  }

  lemma {:induction false} TemplateThenMeans(s: Reader, out: string, addresses: seq<string>)
    returns (parts: seq<Part>)
    requires Clean(s, ParseChars(s, out, addresses)) && |s.text| > 1
    requires var ch, t := s.text[0], s.Drop(1); IsMarker(ch) && !([ch, '{'] <= t.text) && t.StartsWith('{')
    ensures WellFormedParts(parts) && StringMeans(ParseChars(s, out, addresses), out, addresses, parts)
    decreases |s.text|, 0
  {
    hide ParseTemplate;
    var ch, inside := s.text[0], s.Drop(1).Drop(1);
    var p := ParseTemplate(inside, ch);
    CharsGrow(p.rest, out + p.value.0, addresses + p.value.1);
    TemplatesGrow(inside, ch);
    var t := TemplateMeans(inside, ch);
    var others := StringsMean(p.rest, out + p.value.0, addresses + p.value.1);
    parts := [Ref(t)] + others;
    OnePartMore(ParseChars(s, out, addresses), out, addresses, Ref(t), others);
  }

  lemma TemplatesGrow(s: Reader, marker: char)
    ensures Grows(s, ParseTemplate(s, marker))
  {
    hide IsAwsTraversal, TraversalAddresses, Strip;
  }

  // ---------------------------------------------------------------- numbers and words

  lemma {:induction false} SpanCut(s: string, k: nat, p: char -> bool)
    requires Span(s, p) <= k <= |s|
    ensures Span(s[..k], p) == Span(s, p)
  {
    if s != "" && p(s[0]) {
      assert s[..k][1..] == s[1..][..k - 1];
      SpanCut(s[1..], k - 1, p);
    }
  }

  lemma IntegerCut(s: string, k: nat)
    requires IntegerLength(s) <= k <= |s| && IntegerLength(s) > 0
    ensures IntegerLength(s[..k]) == IntegerLength(s)
  {
    var sign := if s[0] == '-' then 1 else 0;
    assert s[..k][sign..] == s[sign..][..k - sign];
    SpanCut(s[sign..], k - sign, IsDigit);
  }

  lemma FractionCut(s: string, k: nat)
    requires FractionLength(s) <= k <= |s|
    ensures FractionLength(s) > 0 || k == 0 || s[0] != '.' ==> FractionLength(s[..k]) == FractionLength(s)
  {
    if FractionLength(s) > 0 {
      assert s[..k][1..] == s[1..][..k - 1];
      SpanCut(s[1..], k - 1, IsDigit);
    }
  }

  lemma ExponentCut(s: string)
    ensures ExponentLength(s[..ExponentLength(s)]) == ExponentLength(s)
  {
    var k := ExponentLength(s);
    if k > 0 {
      var sign := if |s| > 1 && (s[1] == '+' || s[1] == '-') then 1 else 0;
      assert s[..k][1 + sign..] == s[1 + sign..][..k - 1 - sign];
      SpanCut(s[1 + sign..], k - 1 - sign, IsDigit);
    }
  }

  lemma FloatIsOne(s: string)
    requires 0 < IntegerLength(s) < NumberLength(s)
    ensures IsFloat(s[..NumberLength(s)])
  {
    hide IntegerLength, FractionLength, ExponentLength;
    var n, end := IntegerLength(s), NumberLength(s);
    var f, token := FractionLength(s[n..]), s[..end];
    IntegerCut(s, end);
    assert token[n..] == s[n..][..end - n];
    assert end - n > 0;
    ExponentStart(s[n + f..]);
    assert f == 0 ==> s[n + f] == s[n..][0];
    FractionCut(s[n..], end - n);
    assert token[n + f..] == s[n + f..][..end - n - f];
    ExponentCut(s[n + f..]);
  }

  lemma ExponentStart(s: string)
    ensures ExponentLength(s) > 0 ==> s[0] != '.'
  {
  }

  /** Leading zeros only shorten. */
  lemma {:induction false} WritesNoLonger(digits: string)
    requires digits != "" && forall i :: 0 <= i < |digits| ==> IsDigit(digits[i])
    ensures |Natural(Decimal(digits))| <= |digits|
  {
    var front, n := digits[..|digits| - 1], Decimal(digits);
    if front == "" {
      assert Decimal(front) == 0;
    } else {
      WritesNoLonger(front);
      assert n / 10 == Decimal(front);
    }
  }

  lemma ReadIntegersAreReadable(token: string)
    requires IsInteger(token) && 0 < DigitCount(token) <= MAX_INT_DIGITS
    ensures IsReadable(Integer(token))
  {
    if token[0] == '-' {
      WritesNoLonger(token[1..]);
    } else {
      WritesNoLonger(token);
    }
  }

  lemma NumberMeans(s: Reader) returns (e: Expr)
    requires ParseNumber(s).Done?
    ensures WellFormed(e) && Nodes(e) == 1 && (e.EInt? || e.EFloat?) && Meaning(e) == ParseNumber(s).value
  {
    var v, n := ParseNumber(s).value, IntegerLength(s.text);
    if v.Int? {
      e := EInt(v.n);
      IntegersLead(s.text);
      HasDigits(s.text);
      ReadIntegersAreReadable(s.text[..n]);
    } else {
      FloatIsOne(s.text);
      e := EFloat(v.token);
    }
    hide IntegerLength, NumberLength, IsFloat, IsReadable;
  }

  lemma HasDigits(s: string)
    ensures IntegerLength(s) > 0 ==> DigitCount(s[..IntegerLength(s)]) > 0
  {
  }

  predicate IsLeaf(e: Expr) {
    !e.EList? && !e.EObj?
  }

  lemma NameIsIdentifier(s: string)
    requires IdentLength(s) > 0
    ensures IsIdentifier(s[..IdentLength(s)])
  {
    SpanHolds(s, IsPart);
    assert forall i :: 0 <= i < IdentLength(s) ==> s[..IdentLength(s)][i] == s[i];
  }

  predicate IsConstant(name: string) {
    name == "true" || name == "false" || name == "null"
  }

  /** The name a word opens with, and what follows it. */
  function WordName(s: Reader): string
    requires IdentLength(s.text) > 0
  {
    s.text[..IdentLength(s.text)]
  }

  function AfterName(s: Reader): Reader
    requires IdentLength(s.text) > 0
  {
    SkipWs(s.Drop(IdentLength(s.text)))
  }

  /** Other function calls, and traversals outside the provider's, are always reported. */
  lemma OthersAreReported(s: Reader)
    requires IdentLength(s.text) > 0 && !IsConstant(WordName(s))
    requires var u := AfterName(s); u.StartsWith('(') || !("aws_" <= WordName(s) + u.text[..TailsLength(u.text)])
    ensures !Clean(s, ParseWord(s))
  {
    hide IdentLength, TailsLength, TraversalAddresses, SkipCall;
    var u := AfterName(s);
    if u.StartsWith('(') {
      CallsGrow(u.Drop(1), 1);
    }
  }

  lemma ReferencesAreRead(s: Reader)
    requires IdentLength(s.text) > 0 && !IsConstant(WordName(s))
    requires var u := AfterName(s); !u.StartsWith('(') && "aws_" <= WordName(s) + u.text[..TailsLength(u.text)]
    ensures var u := AfterName(s);
      var t := WordName(s) + u.text[..TailsLength(u.text)];
      ParseWord(s).Done? && ParseWord(s).value == Str("${" + t + "}", TraversalAddresses(t))
  {
    hide IdentLength, TailsLength, TraversalAddresses, SkipCall;
  }

  lemma ReferenceMeans(s: Reader) returns (t: Traversal)
    requires IdentLength(s.text) > 0 && !IsConstant(WordName(s)) && Clean(s, ParseWord(s))
    ensures WellFormedTraversal(t) && ParseWord(s).value == Str("${" + TraversalText(t) + "}", Addresses(t))
  {
    hide ParseWord, IdentLength, TailsLength, TraversalAddresses, Addresses, AfterName, TraversalText;
    var name, u := WordName(s), AfterName(s);
    t := TraversalOf(name, u.text);
    if u.StartsWith('(') || !("aws_" <= name + u.text[..TailsLength(u.text)]) {
      OthersAreReported(s);
      assert false;
    }
    ReferencesAreRead(s);
    NameIsIdentifier(s.text);
    TraversalIsOne(name, u.text);
    AddressesAreRead(t);
  }

  lemma ConstantMeans(s: Reader)
    requires IdentLength(s.text) > 0 && IsConstant(WordName(s))
    ensures ParseWord(s).Done?
    ensures ParseWord(s).value == if WordName(s) == "null" then Null else Bool(WordName(s) == "true")
  {
    hide IdentLength, SkipWs, SkipCall, TailsLength, TraversalAddresses;
  }

  lemma WordMeans(s: Reader) returns (e: Expr)
    requires IdentLength(s.text) > 0 && Clean(s, ParseWord(s))
    ensures WellFormed(e) && IsLeaf(e) && Meaning(e) == ParseWord(s).value
  {
    if IsConstant(WordName(s)) {
      ConstantMeans(s);
      hide ParseWord, IdentLength;
      e := if WordName(s) == "null" then ENull else EBool(WordName(s) == "true");
    } else {
      hide ParseWord, IdentLength, WellFormedTraversal, Addresses, TraversalText;
      var t := ReferenceMeans(s);
      e := ERef(t);
    }
  }

  // ---------------------------------------------------------------- values

  predicate Within(e: Expr, nodes: int, room: int) {
    WellFormed(e) && Nodes(e) <= nodes && Fits(e, room)
  }

  predicate ItemsWithin(items: seq<Expr>, nodes: int, room: int) {
    && ItemNodes(items) <= nodes
    && forall i :: 0 <= i < |items| ==> WellFormed(items[i]) && Fits(items[i], room)
  }

  predicate MembersWithin(members: seq<Member>, nodes: int, room: int) {
    && MemberNodes(members) <= nodes && KeysFit(members)
    && forall i :: 0 <= i < |members| ==> WellFormed(members[i].value) && Fits(members[i].value, room)
  }

  lemma {:induction false} OneItemMore(items: seq<Expr>, e: Expr)
    requires WellFormed(e) && forall i :: 0 <= i < |items| ==> WellFormed(items[i])
    ensures ItemNodes(items + [e]) == ItemNodes(items) + Nodes(e)
    ensures Meanings(items + [e]) == Meanings(items) + [Meaning(e)]
  {
    if items != [] {
      assert (items + [e])[1..] == items[1..] + [e];
      OneItemMore(items[1..], e);
    }
  }

  /** Assigning a key in the expression, as `Put` does in its value. */
  function Assign(members: seq<Member>, key: string, e: Expr): seq<Member> {
    if members == [] then [Member(key, false, e)]
    else if members[0].key == key then [Member(key, false, e)] + members[1..]
    else [members[0]] + Assign(members[1..], key, e)
  }

  lemma {:induction false} AssignAddsOnlyIts(members: seq<Member>, key: string, e: Expr)
    ensures forall m :: m in Assign(members, key, e) ==> m in members || m == Member(key, false, e)
  {
    if members != [] && members[0].key != key {
      AssignAddsOnlyIts(members[1..], key, e);
    }
  }

  lemma {:induction false} AssignKeepsKeysFit(members: seq<Member>, key: string, e: Expr)
    requires KeysFit(members)
    ensures KeysFit(Assign(members, key, e))
  {
    var all := Assign(members, key, e);
    if members == [] {
    } else if members[0].key == key {
      assert all[1..] == members[1..];
    } else {
      AssignKeepsKeysFit(members[1..], key, e);
      AssignAddsOnlyIts(members[1..], key, e);
      assert all[1..] == Assign(members[1..], key, e);
      forall j | 1 <= j < |all| ensures all[j].key != members[0].key && (all[j].bare ==> IsIdentifier(all[j].key)) {
        assert all[j] in all[1..];
      }
    }
  }

  lemma {:induction false} AssignCosts(members: seq<Member>, key: string, e: Expr)
    ensures MemberNodes(Assign(members, key, e)) <= MemberNodes(members) + Nodes(e)
  {
    if members != [] && members[0].key != key {
      AssignCosts(members[1..], key, e);
    }
  }

  lemma {:induction false} AssignMeans(members: seq<Member>, key: string, e: Expr)
    requires WellFormed(e) && forall i :: 0 <= i < |members| ==> WellFormed(members[i].value)
    ensures var all := Assign(members, key, e);
      && (forall i :: 0 <= i < |all| ==> WellFormed(all[i].value))
      && MemberMeanings(all) == Put(MemberMeanings(members), key, Meaning(e))
  {
    var all := Assign(members, key, e);
    if members == [] {
    } else if members[0].key == key {
      assert all[1..] == members[1..];
    } else {
      AssignMeans(members[1..], key, e);
      assert all[1..] == Assign(members[1..], key, e);
    }
  }

  lemma OneMemberMore(members: seq<Member>, key: string, e: Expr, nodes: int, more: int, room: int)
    requires MembersWithin(members, nodes, room) && Within(e, more, room)
    ensures MembersWithin(Assign(members, key, e), nodes + more, room)
    ensures MemberMeanings(Assign(members, key, e)) == Put(MemberMeanings(members), key, Meaning(e))
  {
    hide Fits, WellFormed, KeysFit, Nodes;
    AssignAddsOnlyIts(members, key, e);
    AssignKeepsKeysFit(members, key, e);
    AssignCosts(members, key, e);
    AssignMeans(members, key, e);
    var all := Assign(members, key, e);
    forall i | 0 <= i < |all| ensures Fits(all[i].value, room) {
      assert all[i] in all;
    }
  }

  lemma {:induction false} ValueMeans(s: Reader, depth: nat) returns (e: Expr)
    requires Clean(s, ParseValue(s, depth))
    ensures var r := ParseValue(s, depth);
      Within(e, r.rest.nodes - s.nodes, MAX_EXPR_DEPTH - depth) && Meaning(e) == r.value
    decreases |s.text|, 0
  {
    hide ParseItems, ParseMembers, ParseChars, ParseNumber, ParseWord, IdentLength, IsFloat;
    hide WellFormedTraversal, IsReadable, Dedup;
    var t := SkipWs(s.(nodes := s.nodes + 1));
    if t.StartsWith('{') {
      var members := MembersMean(t.Drop(1), depth, []);
      e := EObj(members);
    } else if t.StartsWith('[') {
      var items := ItemsMean(t.Drop(1), depth, []);
      e := EList(items);
    } else if t.StartsWith('"') {
      var parts := StringsMean(t.Drop(1), "", []);
      assert "" + PartsText(parts) == PartsText(parts) && [] + PartsAddresses(parts) == PartsAddresses(parts);
      e := EStr(parts);
    } else if IsDigit(t.text[0]) || t.StartsWith('-') {
      e := NumberMeans(t);
    } else {
      e := WordMeans(t);
    }
  }

  /** A clean list's first item is clean, and so is the rest. */
  lemma FirstItemIsClean(s: Reader, depth: nat, before: seq<Value>)
    requires s.nodes <= MAX_EXPR_NODES && Clean(s, ParseItems(s, depth, before)) && !SkipWs(s).StartsWith(']')
    ensures var t, r := SkipWs(s), ParseItems(s, depth, before);
      var v := ParseValue(t, depth + 1);
      && |t.text| <= |s.text| && t.nodes == s.nodes && Clean(t, v)
      && var next := Comma(SkipWs(v.rest));
         && |next.text| < |s.text| && Clean(next, ParseItems(next, depth, before + [v.value]))
         && r == ParseItems(next, depth, before + [v.value])
  {
    hide ParseValue;
    var t := SkipWs(s);
    ValuesGrow(t, depth + 1);
    var v := ParseValue(t, depth + 1);
    ItemsGrow(Comma(SkipWs(v.rest)), depth, before + [v.value]);
  }

  lemma ItemsEndHere(s: Reader, depth: nat, before: seq<Value>)
    requires s.nodes <= MAX_EXPR_NODES && SkipWs(s).StartsWith(']')
    ensures ParseItems(s, depth, before) == Done(List(before), SkipWs(s).Drop(1))
  {
  }

  lemma {:induction false} ItemsMean(s: Reader, depth: nat, items: seq<Expr>) returns (all: seq<Expr>)
    requires s.nodes <= MAX_EXPR_NODES && ItemsWithin(items, ItemNodes(items), MAX_EXPR_DEPTH - depth - 1)
    requires Clean(s, ParseItems(s, depth, Meanings(items)))
    ensures var r := ParseItems(s, depth, Meanings(items));
      && ItemsWithin(all, ItemNodes(items) + r.rest.nodes - s.nodes, MAX_EXPR_DEPTH - depth - 1)
      && r.value == List(Meanings(all))
    decreases |s.text|, 1
  {
    hide ParseValue, ParseItems, Fits, WellFormed, Meaning, Nodes;
    var t := SkipWs(s);
    if t.StartsWith(']') {
      all := items;
      ItemsEndHere(s, depth, Meanings(items));
    } else {
      FirstItemIsClean(s, depth, Meanings(items));
      var v := ParseValue(t, depth + 1);
      var e := ValueMeans(t, depth + 1);
      OneItemMore(items, e);
      all := ItemsMean(Comma(SkipWs(v.rest)), depth, items + [e]);
    }
  }

  /** Where a member's value begins. */
  function ValueStart(t: Reader): Reader
    requires ParseKey(t).Done? && SkipWs(ParseKey(t).rest).StartsWith('=')
  {
    SkipWs(ParseKey(t).rest).Drop(1)
  }

  /** A clean object's first member is clean, and so is the rest. */
  lemma FirstMemberIsClean(s: Reader, depth: nat, before: seq<(string, Value)>)
    requires s.nodes <= MAX_EXPR_NODES && Clean(s, ParseMembers(s, depth, before)) && !SkipWs(s).StartsWith('}')
    ensures var t, r := SkipWs(s), ParseMembers(s, depth, before);
      && ParseKey(t).Done? && SkipWs(ParseKey(t).rest).StartsWith('=')
      && var w := ValueStart(t);
         var v := ParseValue(w, depth + 1);
         && |w.text| < |s.text| && w.nodes == s.nodes && Clean(w, v)
         && var next := Comma(SkipWs(v.rest));
            && Clean(next, ParseMembers(next, depth, Put(before, ParseKey(t).value, v.value)))
            && r == ParseMembers(next, depth, Put(before, ParseKey(t).value, v.value))
  {
    hide ParseValue, ParseKey, Put;
    var t := SkipWs(s);
    KeysGrow(t);
    var w := ValueStart(t);
    ValuesGrow(w, depth + 1);
    var v := ParseValue(w, depth + 1);
    MembersGrow(Comma(SkipWs(v.rest)), depth, Put(before, ParseKey(t).value, v.value));
  }

  lemma MembersEndHere(s: Reader, depth: nat, before: seq<(string, Value)>)
    requires s.nodes <= MAX_EXPR_NODES && SkipWs(s).StartsWith('}')
    ensures ParseMembers(s, depth, before) == Done(Obj(before), SkipWs(s).Drop(1))
  {
  }

  lemma {:induction false} MembersMean(s: Reader, depth: nat, members: seq<Member>) returns (all: seq<Member>)
    requires s.nodes <= MAX_EXPR_NODES && MembersWithin(members, MemberNodes(members), MAX_EXPR_DEPTH - depth - 1)
    requires Clean(s, ParseMembers(s, depth, MemberMeanings(members)))
    ensures var r := ParseMembers(s, depth, MemberMeanings(members));
      && MembersWithin(all, MemberNodes(members) + r.rest.nodes - s.nodes, MAX_EXPR_DEPTH - depth - 1)
      && r.value == Obj(MemberMeanings(all))
    decreases |s.text|, 1
  {
    hide ParseValue, ParseKey, ParseMembers, Put, Fits, WellFormed, Meaning, Nodes, KeysFit, Assign;
    var t := SkipWs(s);
    if t.StartsWith('}') {
      all := members;
      MembersEndHere(s, depth, MemberMeanings(members));
    } else {
      FirstMemberIsClean(s, depth, MemberMeanings(members));
      var key, w := ParseKey(t).value, ValueStart(t);
      var v := ParseValue(w, depth + 1);
      var e := ValueMeans(w, depth + 1);
      OneMemberMore(members, key, e, MemberNodes(members), v.rest.nodes - w.nodes, MAX_EXPR_DEPTH - depth - 1);
      all := MembersMean(Comma(SkipWs(v.rest)), depth, Assign(members, key, e));
    }
  }

  /** No problem reported: the value is the meaning of an expression that fits the budgets. */
  lemma CleanMeansUnderstood(text: string) returns (e: Expr)
    requires Evaluate(text).Evaluated? && Evaluate(text).problems == []
    ensures Within(e, MAX_EXPR_NODES, MAX_EXPR_DEPTH) && Meaning(e) == Evaluate(text).value
  {
    hide ParseValue;
    e := ValueMeans(Reader(text, 0, []), 0);
  }
}
