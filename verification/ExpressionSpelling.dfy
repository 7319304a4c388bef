/** What the spelling of an expression changes and what it does not: escapes, space, commas, repeated keys, budgets. */
module ExpressionSpelling {
  import opened Expression
  import opened ExpressionPrinter
  import opened ExpressionTokens
  import opened ExpressionRoundTrip
  import opened Sequences

  // ---------------------------------------------------------------- escapes

  /** The place of a hexadecimal digit in its table. */
  lemma EveryHexIsInATable(c: char) returns (k: nat, upper: bool)
    requires IsHex(c)
    ensures k < 16 && c == (if upper then UPPER else LOWER)[k]
  {
    if IsDigit(c) {
      k, upper := DigitValue(c), false;
    } else if 'a' <= c {
      k, upper := c as nat - 'a' as nat + 10, false;
    } else {
      k, upper := c as nat - 'A' as nat + 10, true;
    }
  }

  /** Every string of hexadecimal digits is a spelling of a number. */
  lemma {:induction false} EverySpelling(digits: string) returns (n: nat, upper: seq<bool>)
    requires forall i :: 0 <= i < |digits| ==> IsHex(digits[i])
    ensures |upper| == |digits| && n < Sixteens(|digits|) && HexText(n, upper) == digits
    decreases |digits|
  {
    if digits == "" {
      n, upper := 0, [];
    } else {
      var last := |digits| - 1;
      var front, cases := EverySpelling(digits[..last]);
      var k, high := EveryHexIsInATable(digits[last]);
      n, upper := 16 * front + k, cases + [high];
      assert upper[..last] == cases && n / 16 == front && n % 16 == k;
      assert digits == digits[..last] + [digits[last]];
    }
  }

  /** What a number means as a code point: a character, unless it is out of range or a surrogate. */
  lemma CodePointsAre(n: nat, upper: seq<bool>, text: string, nodes: nat, problems: seq<Problem>)
    requires |upper| in {4, 8} && n < Sixteens(|upper|)
    ensures var esc := if |upper| == 4 then 'u' else 'U';
      ParseEscape(Reader([esc] + HexText(n, upper) + text, nodes, problems))
        == if n <= 0x10FFFF && (n < 0xD800 || 0xDFFF < n) then Done(n as char, Reader(text, nodes, problems))
           else Fail(BadEscape)
  {
    var esc, width, digits := if |upper| == 4 then 'u' else 'U', |upper|, HexText(n, upper);
    HexTextReads(n, upper);
    var s := [esc] + digits + text;
    assert s[0] == esc && s[1..] == digits + text;
    assert (digits + text)[..width] == digits && (digits + text)[width..] == text;
    assert forall i :: 0 <= i < width ==> (digits + text)[i] == digits[i];
    hide HexText, HexValue;
  }

  /** Whatever is no escape of the grammar is refused. */
  lemma OtherEscapesAreRefused(s: Reader)
    requires s.text == "" || s.text[0] !in {'n', 't', 'r', '"', '\\', 'u', 'U'}
             || (s.text[0] == 'u' && (|s.text| < 5 || exists i :: 1 <= i < 5 && !IsHex(s.text[i])))
             || (s.text[0] == 'U' && (|s.text| < 9 || exists i :: 1 <= i < 9 && !IsHex(s.text[i])))
    ensures ParseEscape(s) == Fail(BadEscape)
  {
    if s.text != "" && s.text[0] in {'u', 'U'} {
      var width, t := if s.text[0] == 'u' then 4 else 8, s.text[1..];
      if i :| 1 <= i <= width && |t| >= width && !IsHex(s.text[i]) {
        assert t[i - 1] == s.text[i];
      }
    }
  }

  // ---------------------------------------------------------------- space

  /** The characters Python strips. */
  const SPACES := {'\t', '\n', '\U{B}', '\U{C}', '\r', '\U{1C}', '\U{1D}', '\U{1E}', '\U{1F}', ' ', '\U{85}', '\U{A0}',
                   '\U{1680}', '\U{2000}', '\U{2001}', '\U{2002}', '\U{2003}', '\U{2004}', '\U{2005}', '\U{2006}',
                   '\U{2007}', '\U{2008}', '\U{2009}', '\U{200A}', '\U{2028}', '\U{2029}', '\U{202F}', '\U{205F}',
                   '\U{3000}'}

  lemma SpacesAreThese(c: char)
    ensures IsSpace(c) <==> c in SPACES
  {
  }

  predicate Blank(w: string) {
    forall i :: 0 <= i < |w| ==> w[i] in SPACES
  }

  lemma {:induction false} BlankIsSkipped(w: string, text: string, nodes: nat, problems: seq<Problem>)
    requires Blank(w)
    ensures SkipWs(Reader(w + text, nodes, problems)) == SkipWs(Reader(text, nodes, problems))
  {
    if w == "" {
      assert w + text == text;
    } else {
      SpacesAreThese(w[0]);
      assert (w + text)[1..] == w[1..] + text;
      BlankIsSkipped(w[1..], text, nodes, problems);
    }
  }

  /** Space before a value changes nothing. */
  lemma SpacesBeforeValue(w: string, text: string, nodes: nat, problems: seq<Problem>, depth: nat)
    requires Blank(w)
    ensures ParseValue(Reader(w + text, nodes, problems), depth) == ParseValue(Reader(text, nodes, problems), depth)
  {
    hide SkipWs, ParseNumber, ParseWord, ParseChars, ParseItems, ParseMembers;
    BlankIsSkipped(w, text, nodes + 1, problems);
  }

  /** Nor does space before an item or the closing bracket. */
  lemma SpacesBeforeItem(w: string, text: string, nodes: nat, problems: seq<Problem>, depth: nat, items: seq<Value>)
    requires Blank(w) && nodes <= MAX_EXPR_NODES
    ensures ParseItems(Reader(w + text, nodes, problems), depth, items)
         == ParseItems(Reader(text, nodes, problems), depth, items)
  {
    hide SkipWs, ParseValue, Comma;
    BlankIsSkipped(w, text, nodes, problems);
  }

  /** Nor does space before a member or the closing brace. */
  lemma SpacesBeforeMember(w: string, text: string, nodes: nat, problems: seq<Problem>, depth: nat,
                          members: seq<(string, Value)>)
    requires Blank(w) && nodes <= MAX_EXPR_NODES
    ensures ParseMembers(Reader(w + text, nodes, problems), depth, members)
         == ParseMembers(Reader(text, nodes, problems), depth, members)
  {
    hide SkipWs, ParseValue, ParseKey, Comma, Put;
    BlankIsSkipped(w, text, nodes, problems);
  }

  predicate Digits(s: string) {
    s != "" && forall i :: 0 <= i < |s| ==> '0' <= s[i] <= '9'
  }

  /** An exponent: the letter, perhaps a sign, and digits. */
  predicate Exponent(s: string) {
    |s| > 1 && s[0] in {'e', 'E'} && (Digits(s[1..]) || (s[1] in {'+', '-'} && Digits(s[2..])))
  }

  lemma DigitsSpan(digits: string, rest: string)
    requires Digits(digits) && (rest == "" || !('0' <= rest[0] <= '9'))
    ensures Span(digits + rest, IsDigit) == |digits|
  {
    SpanExact(digits, rest, IsDigit);
  }

  lemma ExponentLeads(s: string)
    requires Exponent(s)
    ensures ExponentLength(s) == |s| && FractionLength(s) == 0
  {
    var sign := if s[1] in {'+', '-'} then 1 else 0;
    assert s[1 + sign..] + "" == s[1 + sign..];
    DigitsSpan(s[1 + sign..], "");
  }

  lemma WholeLeads(sign: string, whole: string, tail: string)
    requires (sign == "" || sign == "-") && Digits(whole) && (tail == "" || !('0' <= tail[0] <= '9'))
    ensures IntegerLength(sign + (whole + tail)) == |sign| + |whole| > 0
    ensures (sign + (whole + tail))[|sign| + |whole|..] == tail
  {
    var token := sign + (whole + tail);
    assert token[|sign|..] == whole + tail && (sign == "" ==> token[0] == whole[0]);
    DigitsSpan(whole, tail);
  }

  lemma FractionLeads(fraction: string, exponent: string)
    requires fraction == "" || (fraction[0] == '.' && Digits(fraction[1..]))
    requires exponent == "" || Exponent(exponent)
    ensures FractionLength(fraction + exponent) == |fraction| && (fraction + exponent)[|fraction|..] == exponent
    ensures ExponentLength(exponent) == |exponent|
  {
    if exponent != "" { ExponentLeads(exponent); }
    if fraction == "" {
      assert fraction + exponent == exponent;
    } else {
      assert (fraction + exponent)[1..] == fraction[1..] + exponent;
      DigitsSpan(fraction[1..], exponent);
    }
  }

  /** Every sign, whole part, fraction and exponent, with at least one of the last two, is a number read to its end. */
  lemma FloatsAre(sign: string, whole: string, fraction: string, exponent: string)
    requires (sign == "" || sign == "-") && Digits(whole)
    requires fraction == "" || (fraction[0] == '.' && Digits(fraction[1..]))
    requires (exponent == "" || Exponent(exponent)) && fraction + exponent != ""
    ensures IsFloat(sign + (whole + (fraction + exponent)))
  {
    hide IntegerLength, FractionLength, ExponentLength, NumberLength, IsFloat, Exponent, Digits;
    var tail := fraction + exponent;
    TailOpens(fraction, exponent);
    WholeLeads(sign, whole, tail);
    FractionLeads(fraction, exponent);
    FloatFromParts(sign + (whole + tail), tail, |sign| + |whole|, |fraction|);
  }

  lemma TailOpens(fraction: string, exponent: string)
    requires fraction == "" || (fraction[0] == '.' && Digits(fraction[1..]))
    requires (exponent == "" || Exponent(exponent)) && fraction + exponent != ""
    ensures !('0' <= (fraction + exponent)[0] <= '9')
  {
    assert (fraction + exponent)[0] == if fraction != "" then '.' else exponent[0];
  }

  lemma FloatFromParts(token: string, tail: string, n: nat, f: nat)
    requires 0 < n == IntegerLength(token) && n < |token| && token[n..] == tail
    requires f == FractionLength(tail) && f + ExponentLength(tail[f..]) == |tail|
    ensures IsFloat(token)
  {
    hide IntegerLength, FractionLength, ExponentLength;
    assert token[n + f..] == tail[f..];
  }

  lemma {:induction false} BlankEndIsStripped(s: string, w: string)
    requires s != "" && !IsSpace(s[|s| - 1]) && Blank(w)
    ensures RStrip(s + w) == s
    decreases |w|
  {
    if w == "" {
      assert s + w == s;
    } else {
      SpacesAreThese(w[|w| - 1]);
      assert (s + w)[..|s + w| - 1] == s + w[..|w| - 1];
      BlankEndIsStripped(s, w[..|w| - 1]);
    }
  }

  lemma {:induction false} BlankSpan(w: string, s: string)
    requires Blank(w) && s != "" && !IsSpace(s[0])
    ensures Span(w + s, IsSpace) == |w|
  {
    if w == "" {
      assert w + s == s;
    } else {
      SpacesAreThese(w[0]);
      assert (w + s)[1..] == w[1..] + s;
      BlankSpan(w[1..], s);
    }
  }

  /** Space inside the braces of a reference changes nothing. */
  lemma SpaceInTemplates(t: Traversal, w: string, v: string, rest: string, nodes: nat, problems: seq<Problem>)
    requires WellFormedTraversal(t) && t.tails != [] && Blank(w) && Blank(v)
    ensures ParseTemplate(Reader(w + TraversalText(t) + v + "}" + rest, nodes, problems), '$')
         == Done(("${" + TraversalText(t) + "}", Addresses(t)), Reader(rest, nodes, problems))
  {
    hide TraversalAddresses, IsAwsTraversal, Addresses, TailsText;
    var body := TraversalText(t);
    var inside := w + body + v;
    var s := w + body + v + "}" + rest;
    TraversalChars(t);
    assert s == inside + ("}" + rest);
    assert '}' !in inside by { NoBraceIn(w); NoBraceIn(v); }
    FindExact(inside, "}" + rest, '}');
    assert s[..|inside|] == inside && s[|inside| + 1..] == rest;
    assert inside == w + (body + v);
    BlankSpan(w, body + v);
    assert inside[|w|..] == body + v;
    BlankEndIsStripped(body, v);
    PrintsAsTraversal(t);
    AddressesAreRead(t);
  }

  lemma NoBraceIn(w: string)
    requires Blank(w)
    ensures '}' !in w
  {
  }

  /** A comma after an item or a member is consumed once, and may be missing. */
  lemma CommasAreOptional(text: string, nodes: nat, problems: seq<Problem>)
    ensures Comma(Reader("," + text, nodes, problems)) == Reader(text, nodes, problems)
    ensures text == "" || text[0] != ',' ==> Comma(Reader(text, nodes, problems)) == Reader(text, nodes, problems)
  {
    assert ("," + text)[1..] == text;
  }

  /** Whether the rendering ends with a bracket or quote of its own. */
  predicate Closed(e: Expr) {
    e.EStr? || e.EList? || e.EObj?
  }

  lemma ClosedReadsBack(e: Expr, rest: string, n: nat, problems: seq<Problem>, depth: nat)
    requires WellFormed(e) && Closed(e) && n + Nodes(e) <= MAX_EXPR_NODES && Fits(e, MAX_EXPR_DEPTH - depth)
    ensures ParseValue(Reader(Render(e) + rest, n, problems), depth)
         == Done(Meaning(e), Reader(rest, n + Nodes(e), problems))
  {
    hide ParseValue, ParseItems, ParseMembers, ParseChars, RenderParts, RenderItems, RenderMembers;
    match e {
      case EList(items) => ListReadsBack(items, rest, n, problems, depth);
      case EObj(members) => ObjectReadsBack(members, rest, n, problems, depth);
      case EStr(parts) =>
        QuotedText(parts, rest);
        Dispatch(Quoted(parts) + rest, n, problems, depth);
        StringReadsBack(parts, rest, n + 1, problems);
    }
  }

  /** Space around a rendering changes nothing, and anything else after it is refused. */
  lemma OnlySpaceMayFollow(w: string, e: Expr, rest: string)
    requires WellFormed(e) && Blank(w) && (Stops(rest) || Closed(e)) && |w + (Render(e) + rest)| <= 131072
    requires Nodes(e) <= 2000 && Fits(e, 64)
    ensures Evaluate(w + (Render(e) + rest))
         == if Blank(rest) then Evaluated(Meaning(e), []) else Malformed(TrailingContent)
  {
    hide ParseValue, Render, Fits;
    SpacesBeforeValue(w, Render(e) + rest, 0, [], 0);
    if Closed(e) {
      ClosedReadsBack(e, rest, 0, [], 0);
    } else {
      ReadsBack(e, rest, 0, [], 0);
    }
    BlankExactly(rest, Nodes(e));
  }

  lemma {:induction false} BlankExactly(rest: string, nodes: nat)
    ensures SkipWs(Reader(rest, nodes, [])).text == "" <==> Blank(rest)
  {
    if rest != "" {
      SpacesAreThese(rest[0]);
      if IsSpace(rest[0]) {
        BlankExactly(rest[1..], nodes);
        assert rest == [rest[0]] + rest[1..];
      }
    }
  }

  // ---------------------------------------------------------------- repeated keys and addresses

  predicate DistinctKeys(members: seq<(string, Value)>) {
    forall i, j :: 0 <= i < j < |members| ==> members[i].0 != members[j].0
  }

  /** Assigning a key replaces its value in place, or appends it; other members stay as and where they were. */
  lemma {:induction false} AssignedInPlace(members: seq<(string, Value)>, key: string, v: Value)
    ensures var all := Put(members, key, v);
      if k :| 0 <= k < |members| && members[k].0 == key && (forall j :: 0 <= j < k ==> members[j].0 != key)
      then all == members[k := (key, v)] else all == members + [(key, v)]
  {
    if members != [] && members[0].0 != key {
      AssignedInPlace(members[1..], key, v);
      assert forall j :: 0 <= j < |members| - 1 ==> members[1..][j] == members[j + 1];
    }
  }

  lemma PutKeepsKeysDistinct(members: seq<(string, Value)>, key: string, v: Value)
    requires DistinctKeys(members)
    ensures DistinctKeys(Put(members, key, v))
    ensures forall k, x :: (k, x) in Put(members, key, v) <==> if k == key then x == v else (k, x) in members
  {
    AssignedInPlace(members, key, v);
    var all := Put(members, key, v);
    if k :| 0 <= k < |members| && members[k].0 == key && (forall j :: 0 <= j < k ==> members[j].0 != key) {
      assert all[k] == (key, v);
      forall i, x | (i, x) in members && i != key ensures (i, x) in all {
        var j :| 0 <= j < |members| && members[j] == (i, x);
        assert all[j] == (i, x);
      }
    } else {
      assert forall j :: 0 <= j < |members| ==> members[j].0 != key by {
        if j :| 0 <= j < |members| && members[j].0 == key {
          FirstKey(members, key);
        }
      }
      assert all[|members|] == (key, v);
    }
  }

  lemma {:induction false} FirstKey(members: seq<(string, Value)>, key: string)
    requires exists j :: 0 <= j < |members| && members[j].0 == key
    ensures exists k :: 0 <= k < |members| && members[k].0 == key && forall j :: 0 <= j < k ==> members[j].0 != key
  {
    if members[0].0 != key {
      var j :| 0 <= j < |members| && members[j].0 == key;
      assert members[1..][j - 1].0 == key;
      FirstKey(members[1..], key);
      var k :| 0 <= k < |members| - 1 && members[1..][k].0 == key
               && forall i :: 0 <= i < k ==> members[1..][i].0 != key;
      assert members[k + 1].0 == key;
      assert forall i :: 0 < i < k + 1 ==> members[i] == members[1..][i - 1];
    }
  }

  /** Each address once, in the order of its first mention. */
  lemma {:induction false} DedupMeans(s: seq<string>)
    ensures forall a :: a in Dedup(s) <==> a in s
    ensures forall i, j :: 0 <= i < j < |Dedup(s)| ==> Dedup(s)[i] != Dedup(s)[j]
    ensures forall k :: 0 <= k < |s| ==>
              if s[k] in s[..k] then Dedup(s[..k + 1]) == Dedup(s[..k]) else Dedup(s[..k + 1]) == Dedup(s[..k]) + [s[k]]
  {
    if s != [] {
      var n := |s| - 1;
      DedupMeans(s[..n]);
      assert s == s[..n] + [s[n]] && s[..n + 1] == s;
      forall k | 0 <= k < |s|
        ensures if s[k] in s[..k] then Dedup(s[..k + 1]) == Dedup(s[..k])
                else Dedup(s[..k + 1]) == Dedup(s[..k]) + [s[k]]
      {
        if k < n {
          assert s[..n][k] == s[k] && s[..n][..k] == s[..k] && s[..n][..k + 1] == s[..k + 1];
        }
      }
    }
  }

  // ---------------------------------------------------------------- budgets

  /** The budgets in numbers: 131072 characters, 2000 nodes, 64 levels. */
  lemma BudgetsAreKept(text: string, nodes: nat, problems: seq<Problem>, depth: nat)
    ensures |text| > 131072 ==> Evaluate(text) == Malformed(SizeBudget)
    ensures nodes >= 2000 ==> ParseValue(Reader(text, nodes, problems), depth) == Fail(NodeBudget)
    ensures nodes < 2000 && depth > 64 ==> ParseValue(Reader(text, nodes, problems), depth) == Fail(NestingBudget)
  {
  }
}
