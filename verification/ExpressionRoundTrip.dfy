/** Reading what the printer wrote gives back what was meant, and reading anything stays within the budgets. */
module ExpressionRoundTrip {
  import opened Expression
  import opened ExpressionPrinter
  import opened ExpressionTokens
  import opened Sequences

  // ---------------------------------------------------------------- one value

  lemma WordReads(e: Expr, rest: string, n: nat, problems: seq<Problem>)
    requires (e.ENull? || e.EBool?) && Stops(rest)
    ensures IdentLength(Render(e) + rest) == |Render(e)|
    ensures ParseWord(Reader(Render(e) + rest, n, problems)) == Done(Meaning(e), Reader(rest, n, problems))
  {
    SpanExact(Render(e), rest, IsPart);
    Halves(Render(e), rest);
  }

  lemma RefHeadReads(t: Traversal, rest: string)
    requires WellFormedTraversal(t) && Stops(rest)
    ensures var s := TraversalText(t) + rest;
      && IdentLength(s) == |t.head| && s[..|t.head|] == t.head && s[|t.head|..] == TailsText(t.tails) + rest
  {
    HeadReads(t, rest);
    Regroup(t.head, TailsText(t.tails), rest);
    Halves(t.head, TailsText(t.tails) + rest);
  }

  lemma TailsOpen(tails: seq<Tail>, rest: string)
    ensures var u := TailsText(tails) + rest;
      if tails == [] then u == rest else u != "" && (u[0] == '.' || u[0] == '[')
  {
    if tails == [] {
      assert TailsText(tails) + rest == rest;
    } else {
      Regroup(TailText(tails[0]), TailsText(tails[1..]), rest);
    }
  }

  lemma RefTailsRead(t: Traversal, rest: string)
    requires WellFormedTraversal(t) && Stops(rest)
    ensures var u, m := TailsText(t.tails) + rest, |TailsText(t.tails)|;
      && (u == "" || (!IsSpace(u[0]) && u[0] != '('))
      && TailsLength(u) == m && u[..m] == TailsText(t.tails) && u[m..] == rest
  {
    TailsRead(t.tails, rest);
    Halves(TailsText(t.tails), rest);
    TailsOpen(t.tails, rest);
    hide TailsText, TailsLength;
  }

  lemma AwsWordReads(s: string, head: string, tails: string, rest: string, n: nat, problems: seq<Problem>)
    requires IdentLength(s) == |head| && "aws_" <= head && s == head + (tails + rest)
    requires var u := tails + rest;
      (u == "" || (!IsSpace(u[0]) && u[0] != '(')) && TailsLength(u) == |tails|
    ensures ParseWord(Reader(s, n, problems))
         == Done(Str("${" + (head + tails) + "}", TraversalAddresses(head + tails)), Reader(rest, n, problems))
  {
    hide SkipCall, TailsLength, IdentLength, TraversalAddresses, SkipWs, IsSpace;
    Halves(head, tails + rest);
    Halves(tails, rest);
    NothingToSkip(Reader(tails + rest, n, problems));
    assert Reader(s, n, problems).Drop(|head|) == Reader(tails + rest, n, problems);
    assert head[0] == 'a';
  }

  lemma RefWordReads(t: Traversal, rest: string, n: nat, problems: seq<Problem>)
    requires WellFormedTraversal(t) && Stops(rest)
    ensures IdentLength(TraversalText(t) + rest) == |t.head|
    ensures ParseWord(Reader(TraversalText(t) + rest, n, problems)) == Done(Meaning(ERef(t)), Reader(rest, n, problems))
  {
    hide ParseWord, TailsLength, IdentLength, TraversalAddresses, Addresses, TailsText;
    RefHeadReads(t, rest);
    RefTailsRead(t, rest);
    AddressesAreRead(t);
    Regroup(t.head, TailsText(t.tails), rest);
    AwsWordReads(TraversalText(t) + rest, t.head, TailsText(t.tails), rest, n, problems);
  }

  lemma QuotedText(parts: seq<Part>, rest: string)
    ensures var s := Quoted(parts) + rest;
      s[0] == '"' && s[1..] == RenderParts(parts) + ("\"" + rest)
  {
    hide RenderParts;
    Regroup("\"", RenderParts(parts), "\"");
    Regroup("\"", RenderParts(parts) + "\"", rest);
    Regroup(RenderParts(parts), "\"", rest);
    Halves("\"", RenderParts(parts) + ("\"" + rest));
  }

  /** A rendering opens with neither space nor a closing bracket. */
  lemma OpensValue(e: Expr)
    requires WellFormed(e)
    ensures Render(e) != "" && !IsSpace(Render(e)[0]) && Render(e)[0] != ']' && Render(e)[0] != '}'
  {
    hide IsSpace, RenderParts, RenderItems, RenderMembers, TailsText, Natural, NumberLength, IntegerLength, IsReadable;
    if e.EInt? {
      IntegerReads(e.n);
    } else if e.EFloat? {
      FloatOpens(e.token);
    }
    OpeningCharacter(Render(e)[0]);
  }

  lemma OpeningCharacter(c: char)
    requires IsDigit(c) || IsHead(c) || c == '-' || c == '"' || c == '[' || c == '{'
    ensures !IsSpace(c) && c != ']' && c != '}'
  {
  }

  lemma SpaceBeforeValue(text: string, n: nat, problems: seq<Problem>, depth: nat)
    ensures ParseValue(Reader(" " + text, n, problems), depth) == ParseValue(Reader(text, n, problems), depth)
  {
    hide ParseItems, ParseMembers, ParseChars, ParseNumber, ParseWord;
    OneSpace(text, n + 1, problems);
  }

  // ---------------------------------------------------------------- lists

  lemma ItemStep(text: string, n: nat, problems: seq<Problem>, depth: nat, before: seq<Value>, v: Value, x: Reader)
    requires n <= MAX_EXPR_NODES && text != "" && !IsSpace(text[0]) && text[0] != ']'
    requires ParseValue(Reader(text, n, problems), depth + 1) == Done(v, x)
    ensures ParseItems(Reader(text, n, problems), depth, before) == ParseItems(Comma(SkipWs(x)), depth, before + [v])
  {
    hide ParseValue;
    NothingToSkip(Reader(text, n, problems));
  }

  lemma SpaceBeforeItem(text: string, n: nat, problems: seq<Problem>, depth: nat, before: seq<Value>)
    requires n <= MAX_EXPR_NODES
    ensures ParseItems(Reader(" " + text, n, problems), depth, before)
         == ParseItems(Reader(text, n, problems), depth, before)
  {
    hide ParseValue;
    OneSpace(text, n, problems);
  }

  lemma CommaIsTaken(text: string, n: nat, problems: seq<Problem>)
    ensures Comma(SkipWs(Reader(", " + text, n, problems))) == Reader(" " + text, n, problems)
  {
    NothingToSkip(Reader(", " + text, n, problems));
    assert (", " + text)[1..] == " " + text;
  }

  lemma NoCommaToTake(text: string, n: nat, problems: seq<Problem>)
    requires text != "" && (text[0] == ']' || text[0] == '}')
    ensures Comma(SkipWs(Reader(text, n, problems))) == Reader(text, n, problems)
  {
    NothingToSkip(Reader(text, n, problems));
  }

  predicate ItemsFit(items: seq<Expr>, n: nat, depth: nat) {
    && n + ItemNodes(items) <= MAX_EXPR_NODES
    && forall i :: 0 <= i < |items| ==> WellFormed(items[i]) && Fits(items[i], MAX_EXPR_DEPTH - depth - 1)
  }

  lemma ItemsMeaning(items: seq<Expr>, before: seq<Value>)
    requires items != [] && forall i :: 0 <= i < |items| ==> WellFormed(items[i])
    ensures before + Meanings(items) == (before + [Meaning(items[0])]) + Meanings(items[1..])
  {
    Regroup(before, [Meaning(items[0])], Meanings(items[1..]));
  }

  /** What follows an item: the closing bracket, or a separator and the other items. */
  function AfterItem(items: seq<Expr>, close: string): string
    requires items != []
  {
    if |items| == 1 then close else ", " + (RenderItems(items[1..]) + close)
  }

  lemma ItemText(items: seq<Expr>, close: string)
    requires items != []
    ensures RenderItems(items) + close == Render(items[0]) + AfterItem(items, close)
  {
    hide Render;
    var first, others := Render(items[0]), RenderItems(items[1..]);
    if |items| == 1 {
      assert RenderItems(items) == first + "";
    } else {
      Regroup(first, ", " + others, close);
      Regroup(", ", others, close);
    }
  }

  /** Between items: the separator is skipped and the other items come next. */
  lemma NextItem(items: seq<Expr>, rest: string, n: nat, problems: seq<Problem>, depth: nat, before: seq<Value>)
    requires items != [] && n <= MAX_EXPR_NODES
    ensures var close := "]" + rest;
      ParseItems(Comma(SkipWs(Reader(AfterItem(items, close), n, problems))), depth, before)
      == ParseItems(Reader(RenderItems(items[1..]) + close, n, problems), depth, before)
  {
    var close := "]" + rest;
    if |items| == 1 {
      assert RenderItems(items[1..]) + close == close;
      NoCommaToTake(close, n, problems);
    } else {
      CommaIsTaken(RenderItems(items[1..]) + close, n, problems);
      SpaceBeforeItem(RenderItems(items[1..]) + close, n, problems, depth, before);
    }
  }

  lemma ItemsEnd(rest: string, n: nat, problems: seq<Problem>, depth: nat, before: seq<Value>)
    requires n <= MAX_EXPR_NODES
    ensures ParseItems(Reader(RenderItems([]) + ("]" + rest), n, problems), depth, before)
         == Done(List(before + []), Reader(rest, n, problems))
  {
    var close := "]" + rest;
    Halves("]", rest);
    assert RenderItems([]) + close == close && before + [] == before;
    NothingToSkip(Reader(close, n, problems));
  }

  lemma {:induction false} ItemsReadBack(items: seq<Expr>, rest: string, n: nat, problems: seq<Problem>, depth: nat,
                                         before: seq<Value>)
    requires ItemsFit(items, n, depth)
    ensures ParseItems(Reader(RenderItems(items) + ("]" + rest), n, problems), depth, before)
         == Done(List(before + Meanings(items)), Reader(rest, n + ItemNodes(items), problems))
    decreases ItemNodes(items), 2
  {
    hide ParseValue, ParseItems, ParseMembers, RenderItems, Meaning, WellFormed, Fits, Nodes;
    if items == [] {
      ItemsEnd(rest, n, problems, depth, before);
    } else {
      ItemReadsBack(items, rest, n, problems, depth, before);
      ItemsReadBack(items[1..], rest, n + Nodes(items[0]), problems, depth, before + [Meaning(items[0])]);
      ItemsMeaning(items, before);
    }
  }

  lemma {:induction false} ItemReadsBack(items: seq<Expr>, rest: string, n: nat, problems: seq<Problem>, depth: nat,
                                         before: seq<Value>)
    requires items != [] && ItemsFit(items, n, depth)
    ensures ParseItems(Reader(RenderItems(items) + ("]" + rest), n, problems), depth, before)
         == ParseItems(Reader(RenderItems(items[1..]) + ("]" + rest), n + Nodes(items[0]), problems), depth,
                       before + [Meaning(items[0])])
    decreases ItemNodes(items), 1
  {
    hide ParseValue, ParseItems, ParseMembers, Render, RenderItems, Meaning;
    var first, k, v := Render(items[0]), n + Nodes(items[0]), Meaning(items[0]);
    var more := AfterItem(items, "]" + rest);
    ItemText(items, "]" + rest);
    OpensValue(items[0]);
    ReadsBack(items[0], more, n, problems, depth + 1);
    ItemStep(first + more, n, problems, depth, before, v, Reader(more, k, problems));
    NextItem(items, rest, k, problems, depth, before + [v]);
  }

  // ---------------------------------------------------------------- objects

  lemma {:induction false} LiteralText(s: string)
    ensures PartsText(Literal(s)) == s
  {
    if s != "" {
      assert Literal(s)[1..] == Literal(s[1..]);
      LiteralText(s[1..]);
    }
  }

  lemma KeyReadsBack(m: Member, rest: string, n: nat, problems: seq<Problem>)
    requires m.bare ==> IsIdentifier(m.key)
    requires Ends(rest, IsPart)
    ensures ParseKey(Reader(RenderKey(m) + rest, n, problems)) == Done(m.key, Reader(rest, n, problems))
  {
    if m.bare {
      SpanExact(m.key, rest, IsPart);
      Halves(m.key, rest);
    } else {
      QuotedText(Literal(m.key), rest);
      StringReadsBack(Literal(m.key), rest, n, problems);
      LiteralText(m.key);
    }
  }

  lemma OpensKey(m: Member)
    requires m.bare ==> IsIdentifier(m.key)
    ensures RenderKey(m) != "" && !IsSpace(RenderKey(m)[0]) && RenderKey(m)[0] != '}'
  {
  }

  /** A key met for the first time goes last. */
  lemma {:induction false} PutNew(members: seq<(string, Value)>, key: string, v: Value)
    requires forall i :: 0 <= i < |members| ==> members[i].0 != key
    ensures Put(members, key, v) == members + [(key, v)]
  {
    if members != [] {
      PutNew(members[1..], key, v);
      assert [members[0]] + (members[1..] + [(key, v)]) == members + [(key, v)];
    }
  }

  lemma SignIsTaken(text: string, n: nat, problems: seq<Problem>)
    ensures SkipWs(Reader(" = " + text, n, problems)) == Reader("= " + text, n, problems)
  {
    assert " = " + text == " " + ("= " + text);
    OneSpace("= " + text, n, problems);
    NothingToSkip(Reader("= " + text, n, problems));
  }

  lemma MemberStep(text: string, key: string, after: string, n: nat, problems: seq<Problem>, depth: nat,
                   before: seq<(string, Value)>, v: Value, x: Reader)
    requires n <= MAX_EXPR_NODES && text != "" && !IsSpace(text[0]) && text[0] != '}'
    requires ParseKey(Reader(text, n, problems)) == Done(key, Reader(" = " + after, n, problems))
    requires ParseValue(Reader(after, n, problems), depth + 1) == Done(v, x)
    ensures ParseMembers(Reader(text, n, problems), depth, before)
         == ParseMembers(Comma(SkipWs(x)), depth, Put(before, key, v))
  {
    hide ParseValue;
    NothingToSkip(Reader(text, n, problems));
    SignIsTaken(after, n, problems);
    assert ("= " + after)[1..] == " " + after;
    SpaceBeforeValue(after, n, problems, depth + 1);
  }

  lemma SpaceBeforeMember(text: string, n: nat, problems: seq<Problem>, depth: nat, before: seq<(string, Value)>)
    requires n <= MAX_EXPR_NODES
    ensures ParseMembers(Reader(" " + text, n, problems), depth, before)
         == ParseMembers(Reader(text, n, problems), depth, before)
  {
    hide ParseValue, ParseKey;
    OneSpace(text, n, problems);
  }

  predicate MembersFit(members: seq<Member>, n: nat, depth: nat) {
    && n + MemberNodes(members) <= MAX_EXPR_NODES && KeysFit(members)
    && forall i :: 0 <= i < |members| ==>
         WellFormed(members[i].value) && Fits(members[i].value, MAX_EXPR_DEPTH - depth - 1)
  }

  predicate AllNew(before: seq<(string, Value)>, members: seq<Member>) {
    forall i, j :: 0 <= i < |before| && 0 <= j < |members| ==> before[i].0 != members[j].key
  }

  lemma MembersMeaning(members: seq<Member>, before: seq<(string, Value)>)
    requires members != [] && forall i :: 0 <= i < |members| ==> WellFormed(members[i].value)
    ensures before + MemberMeanings(members)
         == (before + [(members[0].key, Meaning(members[0].value))]) + MemberMeanings(members[1..])
  {
    Regroup(before, [(members[0].key, Meaning(members[0].value))], MemberMeanings(members[1..]));
  }

  function AfterMember(members: seq<Member>, close: string): string
    requires members != []
  {
    if |members| == 1 then close else ", " + (RenderMembers(members[1..]) + close)
  }

  lemma MemberText(members: seq<Member>, close: string)
    requires members != []
    ensures RenderMembers(members) + close
         == RenderKey(members[0]) + (" = " + (Render(members[0].value) + AfterMember(members, close)))
  {
    hide Render, RenderKey;
    var key, first, others := RenderKey(members[0]), Render(members[0].value), RenderMembers(members[1..]);
    var tail := if |members| == 1 then "" else ", " + others;
    Regroup(", ", others, close);
    assert tail + close == AfterMember(members, close) by { Halves(close, ""); }
    Regroup(key + " = " + first, tail, close);
    Regroup(key + " = ", first, tail + close);
    Regroup(key, " = ", first + (tail + close));
  }

  lemma NextMember(members: seq<Member>, rest: string, n: nat, problems: seq<Problem>, depth: nat,
                   before: seq<(string, Value)>)
    requires members != [] && n <= MAX_EXPR_NODES
    ensures var close := "}" + rest;
      ParseMembers(Comma(SkipWs(Reader(AfterMember(members, close), n, problems))), depth, before)
      == ParseMembers(Reader(RenderMembers(members[1..]) + close, n, problems), depth, before)
  {
    var close := "}" + rest;
    if |members| == 1 {
      assert RenderMembers(members[1..]) + close == close;
      NoCommaToTake(close, n, problems);
    } else {
      CommaIsTaken(RenderMembers(members[1..]) + close, n, problems);
      SpaceBeforeMember(RenderMembers(members[1..]) + close, n, problems, depth, before);
    }
  }

  lemma MembersEnd(rest: string, n: nat, problems: seq<Problem>, depth: nat, before: seq<(string, Value)>)
    requires n <= MAX_EXPR_NODES
    ensures ParseMembers(Reader(RenderMembers([]) + ("}" + rest), n, problems), depth, before)
         == Done(Obj(before + []), Reader(rest, n, problems))
  {
    var close := "}" + rest;
    Halves("}", rest);
    assert RenderMembers([]) + close == close && before + [] == before;
    NothingToSkip(Reader(close, n, problems));
  }

  lemma FirstMemberFits(members: seq<Member>, n: nat, depth: nat, close: string)
    requires members != [] && MembersFit(members, n, depth) && Stops(close)
    ensures var m := members[0];
      && n + Nodes(m.value) <= MAX_EXPR_NODES && WellFormed(m.value) && Fits(m.value, MAX_EXPR_DEPTH - (depth + 1))
      && (m.bare ==> IsIdentifier(m.key))
    ensures Stops(AfterMember(members, close))
  {
  }

  lemma {:induction false} MembersReadBack(members: seq<Member>, rest: string, n: nat, problems: seq<Problem>,
                                           depth: nat, before: seq<(string, Value)>)
    requires MembersFit(members, n, depth) && AllNew(before, members)
    ensures ParseMembers(Reader(RenderMembers(members) + ("}" + rest), n, problems), depth, before)
         == Done(Obj(before + MemberMeanings(members)), Reader(rest, n + MemberNodes(members), problems))
    decreases MemberNodes(members), 2
  {
    hide ParseValue, ParseItems, ParseMembers, Put, RenderMembers, Meaning;
    if members == [] {
      MembersEnd(rest, n, problems, depth, before);
    } else {
      var entry := (members[0].key, Meaning(members[0].value));
      MemberReadsBack(members, rest, n, problems, depth, before);
      PutNew(before, entry.0, entry.1);
      MembersReadBack(members[1..], rest, n + Nodes(members[0].value), problems, depth, before + [entry]);
      MembersMeaning(members, before);
    }
  }

  lemma {:induction false} MemberReadsBack(members: seq<Member>, rest: string, n: nat, problems: seq<Problem>,
                                           depth: nat, before: seq<(string, Value)>)
    requires members != [] && MembersFit(members, n, depth)
    ensures ParseMembers(Reader(RenderMembers(members) + ("}" + rest), n, problems), depth, before)
         == ParseMembers(Reader(RenderMembers(members[1..]) + ("}" + rest), n + Nodes(members[0].value), problems),
                         depth, Put(before, members[0].key, Meaning(members[0].value)))
    decreases MemberNodes(members), 1
  {
    hide ParseValue, ParseItems, ParseMembers, Render, RenderMembers, RenderKey, Meaning;
    FirstMemberFits(members, n, depth, "}" + rest);
    hide MembersFit, AfterMember, Fits, Put, Comma, SkipWs;
    var m, k, v := members[0], n + Nodes(members[0].value), Meaning(members[0].value);
    var more := AfterMember(members, "}" + rest);
    MemberText(members, "}" + rest);
    OpensKey(m);
    KeyReadsBack(m, " = " + (Render(m.value) + more), n, problems);
    ReadsBack(m.value, more, n, problems, depth + 1);
    MemberStep(RenderMembers(members) + ("}" + rest), m.key, Render(m.value) + more, n, problems, depth, before, v,
               Reader(more, k, problems));
    NextMember(members, rest, k, problems, depth, Put(before, m.key, v));
  }

  // ---------------------------------------------------------------- the round trip

  /** What a value's first character decides. */
  lemma Dispatch(text: string, n: nat, problems: seq<Problem>, depth: nat)
    requires n < MAX_EXPR_NODES && depth <= MAX_EXPR_DEPTH && text != "" && !IsSpace(text[0])
    ensures var t, r := Reader(text, n + 1, problems), ParseValue(Reader(text, n, problems), depth);
      && (text[0] == '{' ==> r == ParseMembers(t.Drop(1), depth, []))
      && (text[0] == '[' ==> r == ParseItems(t.Drop(1), depth, []))
      && (text[0] == '"' ==> r == ParseChars(t.Drop(1), "", []))
      && (IsDigit(text[0]) || text[0] == '-' ==> r == ParseNumber(t))
      && (IsHead(text[0]) ==> IdentLength(text) > 0 && r == ParseWord(t))
  {
    hide ParseItems, ParseMembers, ParseChars, ParseNumber, ParseWord;
    NothingToSkip(Reader(text, n + 1, problems));
  }

  lemma LeafReadsBack(e: Expr, rest: string, n: nat, problems: seq<Problem>, depth: nat)
    requires WellFormed(e) && Stops(rest) && !e.EList? && !e.EObj?
    requires n < MAX_EXPR_NODES && depth <= MAX_EXPR_DEPTH
    ensures ParseValue(Reader(Render(e) + rest, n, problems), depth) == Done(Meaning(e), Reader(rest, n + 1, problems))
  {
    hide ParseValue, ParseChars, ParseNumber, ParseWord, RenderParts;
    var s := Render(e) + rest;
    OpensValue(e);
    Dispatch(s, n, problems, depth);
    match e {
      case EInt(i) =>
        IntegerReads(i);
        NumberReadsBack(i, rest, n + 1, problems);
      case EFloat(token) =>
        FloatOpens(token);
        FloatReadsBack(token, rest, n + 1, problems);
      case EStr(parts) =>
        QuotedText(parts, rest);
        StringReadsBack(parts, rest, n + 1, problems);
      case ERef(t) =>
        RefWordReads(t, rest, n + 1, problems);
      case ENull =>
        WordReads(e, rest, n + 1, problems);
      case EBool(_) =>
        WordReads(e, rest, n + 1, problems);
    }
  }

  lemma {:induction false} ListReadsBack(items: seq<Expr>, rest: string, n: nat, problems: seq<Problem>, depth: nat)
    requires ItemsFit(items, n + 1, depth) && depth <= MAX_EXPR_DEPTH
    ensures ParseValue(Reader(Render(EList(items)) + rest, n, problems), depth)
         == Done(List(Meanings(items)), Reader(rest, n + 1 + ItemNodes(items), problems))
    decreases ItemNodes(items), 3
  {
    hide ParseValue, ParseItems, ParseMembers, RenderItems;
    Regroup("[", RenderItems(items), "]");
    Regroup("[", RenderItems(items) + "]", rest);
    Regroup(RenderItems(items), "]", rest);
    Halves("[", RenderItems(items) + ("]" + rest));
    Dispatch(Render(EList(items)) + rest, n, problems, depth);
    ItemsReadBack(items, rest, n + 1, problems, depth, []);
    assert [] + Meanings(items) == Meanings(items);
  }

  lemma {:induction false} ObjectReadsBack(members: seq<Member>, rest: string, n: nat, problems: seq<Problem>,
                                           depth: nat)
    requires MembersFit(members, n + 1, depth) && depth <= MAX_EXPR_DEPTH
    ensures ParseValue(Reader(Render(EObj(members)) + rest, n, problems), depth)
         == Done(Obj(MemberMeanings(members)), Reader(rest, n + 1 + MemberNodes(members), problems))
    decreases MemberNodes(members), 3
  {
    hide ParseValue, ParseItems, ParseMembers, RenderMembers;
    Regroup("{", RenderMembers(members), "}");
    Regroup("{", RenderMembers(members) + "}", rest);
    Regroup(RenderMembers(members), "}", rest);
    Halves("{", RenderMembers(members) + ("}" + rest));
    Dispatch(Render(EObj(members)) + rest, n, problems, depth);
    MembersReadBack(members, rest, n + 1, problems, depth, []);
    assert [] + MemberMeanings(members) == MemberMeanings(members);
  }

  /** A value reads back in any context that stops it, counting one node each and reporting nothing. */
  lemma {:induction false} ReadsBack(e: Expr, rest: string, n: nat, problems: seq<Problem>, depth: nat)
    requires WellFormed(e) && Stops(rest)
    requires n + Nodes(e) <= MAX_EXPR_NODES && Fits(e, MAX_EXPR_DEPTH - depth)
    ensures ParseValue(Reader(Render(e) + rest, n, problems), depth)
         == Done(Meaning(e), Reader(rest, n + Nodes(e), problems))
    decreases Nodes(e), 0
  {
    hide ParseValue, ParseItems, ParseMembers, Render;
    match e {
      case EList(items) => ListReadsBack(items, rest, n, problems, depth);
      case EObj(members) => ObjectReadsBack(members, rest, n, problems, depth);
      case _ => LeafReadsBack(e, rest, n, problems, depth);
    }
  }

  /** Within the budgets, evaluating a rendering gives the meaning, no problems, and nothing left over. */
  lemma RoundTrip(e: Expr)
    requires WellFormed(e)
    requires |Render(e)| <= 131072 && Nodes(e) <= 2000 && Fits(e, 64)
    ensures Evaluate(Render(e)) == Evaluated(Meaning(e), [])
  {
    hide ParseValue, Render;
    assert Render(e) + "" == Render(e);
    ReadsBack(e, "", 0, [], 0);
    NothingToSkip(Reader("", Nodes(e), []));
  }

  /** On its own, an integer evaluates to itself exactly when a literal may have its digits. */
  lemma IntegerEvaluates(n: int)
    ensures Evaluate(Render(EInt(n))) == Evaluated(Int(n), []) <==> IsReadable(n)
  {
    hide IsReadable, ParseNumber, Natural, ParseValue;
    var s := Render(EInt(n));
    assert s == IntegerText(n);
    IntegerReads(n);
    Dispatch(s, 0, [], 0);
    NumberReadsBack(n, "", 1, []);
    Halves(s, "");
    if IsReadable(n) {
      ReadableIsShort(n);
      RoundTrip(EInt(n));
    }
  }

  lemma ReadableIsShort(n: int)
    requires IsReadable(n)
    ensures |Render(EInt(n))| <= MAX_EXPR_CHARS
  {
  }
}
