/** Token by token, the reader reads back what the printer wrote: numbers, traversals, strings. */
module ExpressionTokens {
  import opened Expression
  import opened ExpressionPrinter
  import opened Sequences

  // ---------------------------------------------------------------- characters and spans

  /** No character that could continue the token before it. */
  predicate Ends(rest: string, p: char -> bool) {
    rest == "" || !p(rest[0])
  }

  lemma {:induction false} SpanExact(s: string, rest: string, p: char -> bool)
    requires forall i :: 0 <= i < |s| ==> p(s[i])
    requires Ends(rest, p)
    ensures Span(s + rest, p) == |s|
  {
    if s == "" {
      assert s + rest == rest;
    } else {
      assert (s + rest)[1..] == s[1..] + rest;
      SpanExact(s[1..], rest, p);
    }
  }

  lemma {:induction false} FindExact(s: string, rest: string, c: char)
    requires c !in s && rest != "" && rest[0] == c
    ensures Find(s + rest, c) == |s|
  {
    if s == "" {
      assert s + rest == rest;
    } else {
      assert (s + rest)[1..] == s[1..] + rest;
      FindExact(s[1..], rest, c);
    }
  }

  /** What may follow a value: nothing, a separator or a closing bracket. */
  predicate Stops(rest: string) {
    rest == "" || rest[0] == ',' || rest[0] == ']' || rest[0] == '}'
  }

  lemma NothingToSkip(s: Reader)
    requires s.text == "" || !IsSpace(s.text[0])
    ensures SkipWs(s) == s
  {
    assert s.text[0..] == s.text;
  }

  lemma OneSpace(text: string, n: nat, problems: seq<Problem>)
    ensures SkipWs(Reader(" " + text, n, problems)) == SkipWs(Reader(text, n, problems))
  {
    assert (" " + text)[1..] == text;
    var k := Span(text, IsSpace);
    assert (" " + text)[1 + k..] == text[k..];
  }

  // ---------------------------------------------------------------- numbers

  lemma {:induction false} NaturalReads(n: nat)
    ensures forall i :: 0 <= i < |Natural(n)| ==> IsDigit(Natural(n)[i])
    ensures Natural(n) != "" && Decimal(Natural(n)) == n
  {
    if n < 10 {
      assert Natural(n)[..0] == "";
    } else {
      NaturalReads(n / 10);
      assert Natural(n)[..|Natural(n)| - 1] == Natural(n / 10);
    }
  }

  function IntegerText(n: int): string {
    (if n < 0 then "-" else "") + Natural(Magnitude(n))
  }

  lemma IntegerReads(n: int)
    ensures IntegerText(n) != "" && IsInteger(IntegerText(n)) && Integer(IntegerText(n)) == n
    ensures DigitCount(IntegerText(n)) == |Natural(Magnitude(n))|
    ensures IsDigit(IntegerText(n)[0]) || IntegerText(n)[0] == '-'
  {
    var digits := Natural(Magnitude(n));
    NaturalReads(Magnitude(n));
    if n < 0 {
      assert IntegerText(n)[1..] == digits;
    } else {
      assert IntegerText(n) == digits;
    }
  }

  lemma SignedEnds(digits: string, rest: string)
    requires digits != "" && Stops(rest) && forall i :: 0 <= i < |digits| ==> IsDigit(digits[i])
    ensures IntegerLength(digits + rest) == |digits|
    ensures IntegerLength("-" + digits + rest) == 1 + |digits|
  {
    SpanExact(digits, rest, IsDigit);
    assert (digits + rest)[0..] == digits + rest;
    assert ("-" + digits + rest)[1..] == digits + rest;
  }

  lemma IntegerEnds(n: int, rest: string)
    requires Stops(rest)
    ensures IntegerLength(IntegerText(n) + rest) == |IntegerText(n)|
  {
    hide IntegerLength, Natural;
    NaturalReads(Magnitude(n));
    SignedEnds(Natural(Magnitude(n)), rest);
    assert "" + Natural(Magnitude(n)) == Natural(Magnitude(n));
  }

  lemma IntegerStands(n: int, rest: string)
    requires Stops(rest)
    ensures var s := IntegerText(n) + rest;
      && IntegerLength(s) == NumberLength(s) == |IntegerText(n)| > 0
      && s[..|IntegerText(n)|] == IntegerText(n) && s[|IntegerText(n)|..] == rest
  {
    var s, k := IntegerText(n) + rest, |IntegerText(n)|;
    IntegerReads(n);
    IntegerEnds(n, rest);
    Halves(IntegerText(n), rest);
    assert FractionLength(rest) == 0;
    assert s[k + 0..] == rest;
    assert ExponentLength(rest) == 0;
  }

  /** An integer reads back exactly when a literal may have its digits; otherwise the reader fails. */
  lemma NumberReadsBack(n: int, rest: string, nodes: nat, problems: seq<Problem>)
    requires Stops(rest)
    ensures ParseNumber(Reader(IntegerText(n) + rest, nodes, problems))
         == if IsReadable(n) then Done(Int(n), Reader(rest, nodes, problems)) else Fail(TooManyDigits)
  {
    hide IntegerLength, NumberLength, IntegerText, IsInteger, Integer, Natural;
    IntegerStands(n, rest);
    IntegerReads(n);
  }

  lemma {:induction false} SpanStable(s: string, rest: string, p: char -> bool)
    requires Ends(rest, p)
    ensures Span(s + rest, p) == Span(s, p)
  {
    if s == "" {
      assert s + rest == rest;
    } else {
      assert (s + rest)[1..] == s[1..] + rest;
      SpanStable(s[1..], rest, p);
    }
  }

  lemma FractionStable(s: string, rest: string)
    requires Stops(rest)
    ensures FractionLength(s + rest) == FractionLength(s)
  {
    if s == "" {
      Halves(rest, "");
      assert s + rest == rest;
    } else {
      assert (s + rest)[1..] == s[1..] + rest;
      SpanStable(s[1..], rest, IsDigit);
    }
  }

  lemma ExponentStable(s: string, rest: string)
    requires Stops(rest)
    ensures ExponentLength(s + rest) == ExponentLength(s)
  {
    if s == "" {
      assert s + rest == rest;
    } else {
      assert (s + rest)[1..] == s[1..] + rest;
      SpanStable(s[1..], rest, IsDigit);
      if |s| > 1 {
        assert (s + rest)[2..] == s[2..] + rest;
        SpanStable(s[2..], rest, IsDigit);
      }
    }
  }

  lemma IntegerStable(s: string, rest: string)
    requires Stops(rest)
    ensures IntegerLength(s + rest) == IntegerLength(s)
  {
    SpanStable(s, rest, IsDigit);
    if s == "" {
      assert s + rest == rest;
      assert rest[0..] == rest;
    } else {
      assert (s + rest)[1..] == s[1..] + rest && (s + rest)[0..] == s + rest && s[0..] == s;
      SpanStable(s[1..], rest, IsDigit);
    }
  }

  lemma NumberStable(token: string, rest: string)
    requires Stops(rest)
    ensures IntegerLength(token + rest) == IntegerLength(token) && NumberLength(token + rest) == NumberLength(token)
  {
    hide IntegerLength, FractionLength, ExponentLength;
    var s, n := token + rest, IntegerLength(token);
    IntegerStable(token, rest);
    assert s[n..] == token[n..] + rest;
    FractionStable(token[n..], rest);
    var f := n + FractionLength(token[n..]);
    assert s[f..] == token[f..] + rest;
    ExponentStable(token[f..], rest);
  }

  lemma FloatReadsBack(token: string, rest: string, nodes: nat, problems: seq<Problem>)
    requires IsFloat(token) && Stops(rest)
    ensures ParseNumber(Reader(token + rest, nodes, problems)) == Done(Float(token), Reader(rest, nodes, problems))
  {
    hide IntegerLength, NumberLength;
    NumberStable(token, rest);
    Halves(token, rest);
  }

  lemma FloatOpens(token: string)
    requires IsFloat(token)
    ensures token != "" && (IsDigit(token[0]) || token[0] == '-')
  {
    hide NumberLength;
    assert token[0..] == token;
  }

  // ---------------------------------------------------------------- traversals

  lemma AttrReads(name: string, rest: string)
    requires IsIdentifier(name) && Ends(rest, IsPart)
    ensures IdentLength(name + rest) == |name|
    ensures TailLength("." + name + rest) == 1 + |name|
  {
    assert ("." + name + rest)[1..] == name + rest;
    SpanExact(name, rest, IsPart);
  }

  lemma IndexReads(digits: string, rest: string)
    requires digits != "" && forall i :: 0 <= i < |digits| ==> IsDigit(digits[i])
    ensures TailLength("[" + digits + "]" + rest) == |digits| + 2
  {
    var s := "[" + digits + "]" + rest;
    assert s[1..] == digits + ("]" + rest);
    SpanExact(digits, "]" + rest, IsDigit);
    assert s[1 + |digits|] == ']';
  }

  lemma TailReads(t: Tail, rest: string)
    requires WellFormedTail(t)
    requires Ends(rest, IsPart)
    ensures TailLength(TailText(t) + rest) == |TailText(t)|
  {
    match t {
      case Attr(name) =>
        AttrReads(name, rest);
      case Index(digits) =>
        IndexReads(digits, rest);
    }
  }

  predicate IsStep(c: char) {
    IsPart(c) || c == '.' || c == '['
  }

  lemma TailsStart(tails: seq<Tail>, rest: string)
    requires Ends(rest, IsPart)
    ensures Ends(TailsText(tails) + rest, IsPart)
    ensures Ends(rest, NamePart) ==> Ends(TailsText(tails) + rest, NamePart)
  {
    if tails != [] {
      assert (TailsText(tails) + rest)[0] == TailText(tails[0])[0];
    } else {
      assert TailsText(tails) + rest == rest;
    }
  }

  lemma {:induction false} TailsRead(tails: seq<Tail>, rest: string)
    requires WellFormedTails(tails) && Ends(rest, IsStep)
    ensures TailsLength(TailsText(tails) + rest) == |TailsText(tails)|
  {
    if tails == [] {
      assert TailsText(tails) + rest == rest;
    } else {
      var first, after := TailText(tails[0]), TailsText(tails[1..]) + rest;
      Regroup(first, TailsText(tails[1..]), rest);
      TailsStart(tails[1..], rest);
      TailReads(tails[0], after);
      Halves(first, after);
      TailsRead(tails[1..], rest);
    }
  }

  predicate IsTraversalChar(c: char) {
    IsPart(c) || c == '.' || c == '[' || c == ']'
  }

  lemma TailChars(t: Tail)
    requires WellFormedTail(t)
    ensures forall i :: 0 <= i < |TailText(t)| ==> IsTraversalChar(TailText(t)[i])
  {
    if t.Index? {
      forall i | 0 <= i < |TailText(t)| ensures IsTraversalChar(TailText(t)[i]) {
        if 0 < i < |TailText(t)| - 1 {
          assert TailText(t)[i] == t.digits[i - 1];
        }
      }
    }
  }

  lemma {:induction false} TailsChars(tails: seq<Tail>)
    requires WellFormedTails(tails)
    ensures forall i :: 0 <= i < |TailsText(tails)| ==> IsTraversalChar(TailsText(tails)[i])
  {
    if tails != [] {
      TailChars(tails[0]);
      TailsChars(tails[1..]);
    }
  }

  lemma TraversalChars(t: Traversal)
    requires WellFormedTraversal(t)
    ensures forall i :: 0 <= i < |TraversalText(t)| ==> IsTraversalChar(TraversalText(t)[i])
    ensures "aws_" <= TraversalText(t)
  {
    TailsChars(t.tails);
  }

  lemma NothingToStrip(s: string)
    requires s != "" && !IsSpace(s[0]) && !IsSpace(s[|s| - 1])
    ensures Strip(s) == s
  {
    assert s[0..] == s;
  }

  lemma HeadReads(t: Traversal, rest: string)
    requires WellFormedTraversal(t) && Ends(rest, IsPart)
    ensures Span(TraversalText(t) + rest, IsPart) == |t.head|
    ensures (TraversalText(t) + rest)[|t.head|..] == TailsText(t.tails) + rest
  {
    Regroup(t.head, TailsText(t.tails), rest);
    Halves(t.head, TailsText(t.tails) + rest);
    TailsStart(t.tails, rest);
    SpanExact(t.head, TailsText(t.tails) + rest, IsPart);
  }

  lemma PrintsAsTraversal(t: Traversal)
    requires WellFormedTraversal(t) && t.tails != []
    ensures IsAwsTraversal(TraversalText(t))
  {
    Halves(TraversalText(t), "");
    Halves(TailsText(t.tails), "");
    HeadReads(t, "");
    TailsRead(t.tails, "");
    TraversalChars(t);
    assert TailText(t.tails[0]) != "";
  }

  /** A head with a character no resource type has names no resource. */
  lemma OddHeadNamesNothing(t: Traversal)
    requires WellFormedTraversal(t)
    requires exists i :: 0 <= i < |t.head| && !IsTypePart(t.head[i])
    ensures TraversalAddresses(TraversalText(t)) == []
  {
    var s := TraversalText(t);
    var n := Span(s, IsTypePart);
    SpanHolds(s, IsTypePart);
    var i :| 0 <= i < |t.head| && !IsTypePart(t.head[i]);
    assert s[i] == t.head[i];
    assert n <= i;
    assert s[n] == t.head[n];
  }

  lemma TypeReads(t: Traversal)
    requires WellFormedTraversal(t)
    requires forall i :: 0 <= i < |t.head| ==> IsTypePart(t.head[i])
    ensures Span(TraversalText(t), IsTypePart) == |t.head|
  {
    TailsStart(t.tails, "");
    assert TailsText(t.tails) + "" == TailsText(t.tails);
    SpanExact(t.head, TailsText(t.tails), IsTypePart);
  }

  lemma DottedHalves(head: string, name: string, after: string)
    ensures var s := head + ("." + (name + after));
      && |s| == |head| + 1 + |name| + |after| && s[|head|] == '.' && s[|head| + 1..] == name + after
      && s[..|head| + 1 + |name|] == head + "." + name
      && (after != "" ==> s[|head| + 1 + |name|] == after[0])
      && (name != "" ==> s[|head| + 1] == name[0])
  {
    var s := head + ("." + (name + after));
    assert s == (head + "." + name) + after;
    assert s == (head + ".") + (name + after);
  }

  lemma DottedAddresses(head: string, name: string, after: string)
    requires "aws_" <= head && |head| > 4 && forall i :: 0 <= i < |head| ==> IsTypePart(head[i])
    requires IsIdentifier(name) && Ends(after, NamePart)
    ensures TraversalAddresses(head + ("." + (name + after)))
         == if after != "" && after[0] == '[' then [] else [head + "." + name]
  {
    DottedHalves(head, name, after);
    SpanExact(head, "." + (name + after), IsTypePart);
    SpanExact(name, after, NamePart);
  }

  lemma NamesItsResource(t: Traversal)
    requires WellFormedTraversal(t) && t.tails != [] && |t.head| > 4 && t.tails[0].Attr?
    requires forall i :: 0 <= i < |t.head| ==> IsTypePart(t.head[i])
    ensures TraversalAddresses(TraversalText(t)) == Addresses(t)
  {
    var name, after := t.tails[0].name, TailsText(t.tails[1..]);
    assert WellFormedTail(t.tails[0]);
    Regroup(".", name, after);
    TailsStart(t.tails[1..], "");
    Halves(after, "");
    DottedAddresses(t.head, name, after);
  }

  /** The pattern matcher finds exactly the resource the traversal names. */
  lemma AddressesAreRead(t: Traversal)
    requires WellFormedTraversal(t)
    ensures TraversalAddresses(TraversalText(t)) == Addresses(t)
  {
    if exists i :: 0 <= i < |t.head| && !IsTypePart(t.head[i]) {
      OddHeadNamesNothing(t);
    } else {
      TypeReads(t);
      if t.tails == [] {
        Halves(t.head, "");
      } else if |t.head| > 4 && t.tails[0].Attr? {
        NamesItsResource(t);
      } else if t.tails[0].Index? {
        assert TailsText(t.tails) == TailText(t.tails[0]) + TailsText(t.tails[1..]);
        assert TraversalText(t)[|t.head|] == TailsText(t.tails)[0] == '[';
      }
    }
  }

  lemma TemplateReadsBack(t: Traversal, rest: string, nodes: nat, problems: seq<Problem>)
    requires WellFormedTraversal(t) && t.tails != []
    ensures ParseTemplate(Reader(TraversalText(t) + "}" + rest, nodes, problems), '$')
         == Done(("${" + TraversalText(t) + "}", Addresses(t)), Reader(rest, nodes, problems))
  {
    var body := TraversalText(t);
    var s := body + "}" + rest;
    TraversalChars(t);
    assert s == body + ("}" + rest);
    FindExact(body, "}" + rest, '}');
    assert s[..|body|] == body && s[|body| + 1..] == rest;
    NothingToStrip(body);
    PrintsAsTraversal(t);
    AddressesAreRead(t);
  }

  // ---------------------------------------------------------------- strings

  predicate IsMarker(c: char) {
    c == '$' || c == '%'
  }

  lemma EscapedReads(c: char, text: string, n: nat, problems: seq<Problem>, out: string, addresses: seq<string>)
    requires Escaped(c) != [c]
    ensures ParseChars(Reader(Escaped(c) + text, n, problems), out, addresses)
         == ParseChars(Reader(text, n, problems), out + [c], addresses)
  {
    var s, esc := Escaped(c) + text, Escaped(c)[1];
    assert s[0] == '\\' && s[1..] == [esc] + text;
    assert s[1..][1..] == text;
    assert ParseEscape(Reader([esc] + text, n, problems)) == Done(c, Reader(text, n, problems));
  }

  lemma PlainReads(c: char, text: string, n: nat, problems: seq<Problem>, out: string, addresses: seq<string>)
    requires Escaped(c) == [c]
    requires IsMarker(c) ==> !Opens(text, c) && (text == "" || text[0] != '{')
    ensures ParseChars(Reader([c] + text, n, problems), out, addresses)
         == ParseChars(Reader(text, n, problems), out + [c], addresses)
  {
    assert ([c] + text)[1..] == text;
  }

  lemma DoubledReads(c: char, text: string, n: nat, problems: seq<Problem>, out: string, addresses: seq<string>)
    requires IsMarker(c)
    ensures ParseChars(Reader([c, c, '{'] + text, n, problems), out, addresses)
         == ParseChars(Reader(text, n, problems), out + [c, '{'], addresses)
  {
    var s := [c, c, '{'] + text;
    assert s[1..] == [c, '{'] + text;
    assert s[1..][2..] == text;
  }

  /** Each digit of either table reads as its place in the table. */
  lemma HexDigitReads(k: nat)
    requires k < 16
    ensures IsHex(LOWER[k]) && HexDigit(LOWER[k]) == k
    ensures IsHex(UPPER[k]) && HexDigit(UPPER[k]) == k
  {
    if k < 10 {
      assert LOWER[k] == UPPER[k] == Digit(k);
    } else {
      assert LOWER[k] as nat == 'a' as nat + k - 10 && UPPER[k] as nat == 'A' as nat + k - 10;
    }
  }

  function Sixteens(k: nat): nat {
    if k == 0 then 1 else 16 * Sixteens(k - 1)
  }

  /** Hexadecimal digits, in whatever case, read back as the number written. */
  lemma {:induction false} HexTextReads(n: nat, upper: seq<bool>)
    requires n < Sixteens(|upper|)
    ensures forall i :: 0 <= i < |upper| ==> IsHex(HexText(n, upper)[i])
    ensures HexValue(HexText(n, upper)) == n
    decreases |upper|
  {
    if upper != [] {
      var s, last := HexText(n, upper), |upper| - 1;
      HexTextReads(n / 16, upper[..last]);
      HexDigitReads(n % 16);
      assert s[..last] == HexText(n / 16, upper[..last]);
      assert n == 16 * (n / 16) + n % 16;
    }
  }

  /** A code point of so many digits is read as its character. */
  lemma EscapeReadsBack(c: char, upper: seq<bool>, text: string, n: nat, problems: seq<Problem>)
    requires WellFormedPart(Code(c, upper))
    ensures ParseEscape(Reader(CodeText(c, upper)[1..] + text, n, problems)) == Done(c, Reader(text, n, problems))
  {
    hide HexText, HexValue;
    var width, digits := |upper|, HexText(c as nat, upper);
    assert Sixteens(4) == 0x10000 && Sixteens(8) == 0x1_0000_0000;
    HexTextReads(c as nat, upper);
    var s := CodeText(c, upper)[1..] + text;
    assert s[0] == (if width == 4 then 'u' else 'U') && s[1..] == digits + text;
    assert (digits + text)[..width] == digits && (digits + text)[width..] == text;
    assert forall i :: 0 <= i < width ==> (digits + text)[i] == digits[i];
    assert IsCodePoint(c as nat) && c as nat as char == c;
  }

  lemma CodePointReads(c: char, upper: seq<bool>, text: string, n: nat, problems: seq<Problem>, out: string,
                       addresses: seq<string>)
    requires WellFormedPart(Code(c, upper))
    ensures ParseChars(Reader(CodeText(c, upper) + text, n, problems), out, addresses)
         == ParseChars(Reader(text, n, problems), out + [c], addresses)
  {
    var s := CodeText(c, upper) + text;
    assert s[0] == '\\' && s[1..] == CodeText(c, upper)[1..] + text;
    hide ParseEscape, HexText;
    EscapeReadsBack(c, upper, text, n, problems);
  }

  lemma HexTextStep(n: nat, upper: seq<bool>, last: bool)
    ensures HexText(n, upper + [last]) == HexText(n / 16, upper) + [(if last then UPPER else LOWER)[n % 16]]
  {
    assert (upper + [last])[..|upper|] == upper;
  }

  lemma DollarIsCodePoint24()
    ensures CodeText('$', [false, false, false, false]) == "\\u0024"
  {
    hide HexText;
    HexTextStep(0, [], false);
    HexTextStep(0, [] + [false], false);
    HexTextStep(2, [] + [false] + [false], false);
    HexTextStep(0x24, [] + [false] + [false] + [false], false);
    assert [] + [false] + [false] + [false] + [false] == [false, false, false, false];
    assert HexText(0, []) == "";
    assert LOWER[0] == '0' && LOWER[2] == '2' && LOWER[4] == '4';
  }

  /** A template sequence contributes what reading its inside gives. */
  lemma TemplateStep(body: string, n: nat, problems: seq<Problem>, out: string, addresses: seq<string>)
    requires ParseTemplate(Reader(body, n, problems), '$').Done?
    ensures var r := ParseTemplate(Reader(body, n, problems), '$');
      ParseChars(Reader("${" + body, n, problems), out, addresses)
      == ParseChars(r.rest, out + r.value.0, addresses + r.value.1)
  {
    var s := "${" + body;
    assert s[1..] == "{" + body;
    assert s[1..][1..] == body;
  }

  lemma RefReads(t: Traversal, text: string, n: nat, problems: seq<Problem>, out: string, addresses: seq<string>)
    requires WellFormedTraversal(t) && t.tails != []
    ensures ParseChars(Reader(PartText(Ref(t)) + text, n, problems), out, addresses)
         == ParseChars(Reader(text, n, problems), out + PartText(Ref(t)), addresses + Addresses(t))
  {
    TemplateReadsBack(t, text, n, problems);
    TemplateStep(TraversalText(t) + "}" + text, n, problems, out, addresses);
    Regroup("${", TraversalText(t), "}");
    Regroup("${", TraversalText(t) + "}", text);
  }

  predicate Opens(s: string, marker: char) {
    |s| > 1 && s[0] == marker && s[1] == '{'
  }

  /** A rendering opens with a brace only for a literal brace, and with `${` only for a reference. */
  lemma {:induction false} Opening(parts: seq<Part>, tail: string)
    requires tail != "" && tail[0] == '"'
    ensures var s := RenderParts(parts) + tail;
      && (s[0] == '{' ==> parts != [] && parts[0] == Char('{'))
      && (Opens(s, '$') ==> parts != [] && parts[0].Ref?)
      && !Opens(s, '%')
  {
    if parts != [] && parts[0].Code? {
      assert RenderParts(parts)[0] == '\\';
    } else if parts != [] && parts[0].Char? {
      var s, c, after := RenderParts(parts) + tail, parts[0].c, RenderParts(parts[1..]) + tail;
      if IsMarker(c) && |parts| > 1 && parts[1] == Char('{') {
        assert s[1] == c;
      } else if Escaped(c) == [c] && !(c == '$' && |parts| > 1 && parts[1].Ref?) {
        Opening(parts[1..], tail);
        assert s[1] == after[0];
      }
    }
  }

  lemma CharAddsNothing(parts: seq<Part>)
    requires WellFormedParts(parts) && parts != [] && !parts[0].Ref?
    ensures PartsAddresses(parts) == PartsAddresses(parts[1..])
  {
    assert [] + PartsAddresses(parts[1..]) == PartsAddresses(parts[1..]);
  }

  lemma BraceText(parts: seq<Part>)
    requires WellFormedParts(parts) && |parts| > 1 && parts[0].Char? && parts[1] == Char('{')
    ensures PartsText(parts) == [parts[0].c, '{'] + PartsText(parts[2..])
    ensures PartsAddresses(parts) == PartsAddresses(parts[2..])
  {
    assert parts[1..][1..] == parts[2..];
    CharAddsNothing(parts);
    CharAddsNothing(parts[1..]);
    assert [parts[0].c] + ['{'] == [parts[0].c, '{'];
    Regroup([parts[0].c], ['{'], PartsText(parts[2..]));
  }

  lemma {:induction false} PartsRead(parts: seq<Part>, tail: string, n: nat, problems: seq<Problem>, out: string,
                                     addresses: seq<string>)
    requires WellFormedParts(parts) && tail != "" && tail[0] == '"'
    ensures ParseChars(Reader(RenderParts(parts) + tail, n, problems), out, addresses)
         == ParseChars(Reader(tail, n, problems), out + PartsText(parts), addresses + PartsAddresses(parts))
    decreases |parts|
  {
    if parts == [] {
      assert RenderParts(parts) + tail == tail && out + "" == out && addresses + [] == addresses;
    } else if parts[0].Ref? {
      var t := parts[0].traversal;
      assert WellFormedPart(parts[0]);
      Regroup(PartText(parts[0]), RenderParts(parts[1..]), tail);
      RefReads(t, RenderParts(parts[1..]) + tail, n, problems, out, addresses);
      PartsRead(parts[1..], tail, n, problems, out + PartText(parts[0]), addresses + Addresses(t));
      Regroup(out, PartText(parts[0]), PartsText(parts[1..]));
      Regroup(addresses, Addresses(t), PartsAddresses(parts[1..]));
    } else if parts[0].Code? {
      var c, upper := parts[0].c, parts[0].upper;
      assert WellFormedPart(parts[0]);
      Regroup(CodeText(c, upper), RenderParts(parts[1..]), tail);
      CodePointReads(c, upper, RenderParts(parts[1..]) + tail, n, problems, out, addresses);
      PartsRead(parts[1..], tail, n, problems, out + [c], addresses);
      Regroup(out, [c], PartsText(parts[1..]));
      CharAddsNothing(parts);
    } else if IsMarker(parts[0].c) && |parts| > 1 && parts[1] == Char('{') {
      BraceRead(parts, tail, n, problems, out, addresses);
    } else {
      CharStep(parts, tail, n, problems, out, addresses);
      PartsRead(parts[1..], tail, n, problems, out + [parts[0].c], addresses);
      Regroup(out, [parts[0].c], PartsText(parts[1..]));
      CharAddsNothing(parts);
    }
  }

  lemma {:induction false} BraceRead(parts: seq<Part>, tail: string, n: nat, problems: seq<Problem>, out: string,
                                     addresses: seq<string>)
    requires WellFormedParts(parts) && tail != "" && tail[0] == '"' && |parts| > 1
    requires parts[0].Char? && IsMarker(parts[0].c) && parts[1] == Char('{')
    ensures ParseChars(Reader(RenderParts(parts) + tail, n, problems), out, addresses)
         == ParseChars(Reader(tail, n, problems), out + PartsText(parts), addresses + PartsAddresses(parts))
    decreases |parts|, 0
  {
    var c := parts[0].c;
    Regroup([c, c, '{'], RenderParts(parts[2..]), tail);
    DoubledReads(c, RenderParts(parts[2..]) + tail, n, problems, out, addresses);
    PartsRead(parts[2..], tail, n, problems, out + [c, '{'], addresses);
    BraceText(parts);
    Regroup(out, [c, '{'], PartsText(parts[2..]));
  }

  /** One literal character, whichever way it is written. */
  lemma CharStep(parts: seq<Part>, tail: string, n: nat, problems: seq<Problem>, out: string, addresses: seq<string>)
    requires tail != "" && tail[0] == '"' && parts != [] && parts[0].Char?
    requires !(IsMarker(parts[0].c) && |parts| > 1 && parts[1] == Char('{'))
    ensures ParseChars(Reader(RenderParts(parts) + tail, n, problems), out, addresses)
         == ParseChars(Reader(RenderParts(parts[1..]) + tail, n, problems), out + [parts[0].c], addresses)
  {
    var c, after := parts[0].c, RenderParts(parts[1..]) + tail;
    if c == '$' && |parts| > 1 && parts[1].Ref? {
      Regroup("\\u0024", RenderParts(parts[1..]), tail);
      DollarIsCodePoint24();
      CodePointReads('$', [false, false, false, false], after, n, problems, out, addresses);
    } else {
      Regroup(Escaped(c), RenderParts(parts[1..]), tail);
      if Escaped(c) != [c] {
        EscapedReads(c, after, n, problems, out, addresses);
      } else {
        Opening(parts[1..], tail);
        PlainReads(c, after, n, problems, out, addresses);
      }
    }
  }

  lemma StringReadsBack(parts: seq<Part>, rest: string, n: nat, problems: seq<Problem>)
    requires WellFormedParts(parts)
    ensures ParseChars(Reader(RenderParts(parts) + ("\"" + rest), n, problems), "", [])
         == Done(Str(PartsText(parts), Dedup(PartsAddresses(parts))), Reader(rest, n, problems))
  {
    PartsRead(parts, "\"" + rest, n, problems, "", []);
    assert ("\"" + rest)[1..] == rest && "" + PartsText(parts) == PartsText(parts);
    assert [] + PartsAddresses(parts) == PartsAddresses(parts);
  }
}
