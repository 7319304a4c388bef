/** The bounded reader of serialized HCL expressions: what it computes, and the stateful reader that computes it. */
module Expression {
  import opened Wrappers

  const MAX_EXPR_NODES := 2000
  const MAX_EXPR_DEPTH := 64
  const MAX_EXPR_CHARS := 131072

  /** Python's limit on the digits of an integer literal. */
  const MAX_INT_DIGITS := 4300

  /** All but `TooManyDigits` are the reader's own; that one is the plain ValueError of `int`. */
  datatype Error =
    | TooManyDigits
    | NodeBudget | NestingBudget | SizeBudget | UnexpectedEnd | UnexpectedToken | Expected(token: char) | BadKey
    | UnterminatedString | BadEscape | UnterminatedTemplate | BadNumber | UnterminatedCall | TrailingContent

  datatype Problem =
    | UnsupportedFunction(name: string)
    | UnresolvedReference(traversal: string)
    | UnresolvedInterpolation(body: string)
    | UnresolvedDirective

  /** A value; a string knows the resources it genuinely references. Floats keep their token. */
  datatype Value =
    | Null
    | Bool(b: bool)
    | Int(n: int)
    | Float(token: string)
    | Str(text: string, addresses: seq<string>)
    | List(items: seq<Value>)
    | Obj(members: seq<(string, Value)>)

  /** The reader's state: text left, nodes counted, problems met. */
  datatype Reader = Reader(text: string, nodes: nat, problems: seq<Problem>) {
    predicate StartsWith(c: char) {
      text != "" && text[0] == c
    }

    function Drop(n: nat): Reader
      requires n <= |text|
    {
      this.(text := text[n..])
    }

    function Problem(p: Problem): Reader {
      this.(problems := problems + [p])
    }
  }

  datatype Parse<T> = Fail(error: Error) | Done(value: T, rest: Reader)

  // ---------------------------------------------------------------- characters

  predicate IsSpace(c: char) {
    || '\t' <= c <= '\r' || '\U{1C}' <= c <= ' ' || c == '\U{85}' || c == '\U{A0}' || c == '\U{1680}'
    || '\U{2000}' <= c <= '\U{200A}' || c == '\U{2028}' || c == '\U{2029}' || c == '\U{202F}' || c == '\U{205F}'
    || c == '\U{3000}'
  }

  predicate IsDigit(c: char) { '0' <= c <= '9' }
  predicate IsHead(c: char) { 'a' <= c <= 'z' || 'A' <= c <= 'Z' || c == '_' }
  predicate IsPart(c: char) { IsHead(c) || IsDigit(c) }
  predicate IsTypePart(c: char) { 'a' <= c <= 'z' || IsDigit(c) || c == '_' }
  predicate IsHex(c: char) { IsDigit(c) || 'a' <= c <= 'f' || 'A' <= c <= 'F' }

  /** How many leading characters satisfy the predicate. */
  function Span(s: string, p: char -> bool): (n: nat)
    ensures n <= |s|
  {
    if s != "" && p(s[0]) then 1 + Span(s[1..], p) else 0
  }

  function SkipWs(s: Reader): (t: Reader)
    ensures |t.text| <= |s.text|
  {
    s.Drop(Span(s.text, IsSpace))
  }

  function RStrip(s: string): string {
    if s != "" && IsSpace(s[|s| - 1]) then RStrip(s[..|s| - 1]) else s
  }

  function Strip(s: string): string {
    RStrip(s[Span(s, IsSpace)..])
  }

  /** The length of a leading identifier, 0 when there is none. */
  function IdentLength(s: string): (n: nat)
    ensures n <= |s|
  {
    if s != "" && IsHead(s[0]) then Span(s, IsPart) else 0
  }

  /** The position of a character, or the length when it does not occur. */
  function Find(s: string, c: char): (n: nat)
    ensures n <= |s| && (n < |s| ==> s[n] == c)
  {
    if s == "" || s[0] == c then 0 else 1 + Find(s[1..], c)
  }

  // ---------------------------------------------------------------- traversals

  /** The length of one leading `.name` or `[digits]`, 0 when there is none. */
  function TailLength(s: string): (n: nat)
    ensures n <= |s|
  {
    if s == "" then 0
    else if s[0] == '.' then
      var n := IdentLength(s[1..]);
      if n == 0 then 0 else 1 + n
    else if s[0] == '[' then
      var n := Span(s[1..], IsDigit);
      if n > 0 && 1 + n < |s| && s[1 + n] == ']' then n + 2 else 0
    else 0
  }

  /** The length of all leading traversal steps. */
  function TailsLength(s: string): (n: nat)
    ensures n <= |s|
  {
    var n := TailLength(s);
    if n == 0 then 0 else n + TailsLength(s[n..])
  }

  /** An `aws_` name followed by at least one step and nothing else. */
  predicate IsAwsTraversal(body: string) {
    "aws_" <= body &&
    var n := Span(body, IsPart);
    n < |body| && TailsLength(body[n..]) == |body| - n
  }

  function NamePart(c: char): bool {
    IsPart(c) || c == '-'
  }

  /** The resource address a traversal names: its type and name, unless an index follows the name. */
  function TraversalAddresses(t: string): seq<string> {
    var n := Span(t, IsTypePart);
    if "aws_" <= t && n > 4 && n + 1 < |t| && t[n] == '.' && IsHead(t[n + 1]) then
      var m := Span(t[n + 1..], NamePart);
      if n + 1 + m < |t| && t[n + 1 + m] == '[' then [] else [t[..n + 1 + m]]
    else []
  }

  function Dedup(s: seq<string>): seq<string> {
    if s == [] then []
    else
      var front, last := Dedup(s[..|s| - 1]), s[|s| - 1];
      if last in front then front else front + [last]
  }

  // ---------------------------------------------------------------- strings

  function SimpleEscape(c: char): Option<char> {
    match c
    case 'n' => Some('\n')
    case 't' => Some('\t')
    case 'r' => Some('\r')
    case '"' => Some('"')
    case '\\' => Some('\\')
    case _ => None
  }

  function DigitValue(c: char): (n: nat)
    requires IsDigit(c)
    ensures n < 10
  {
    c as nat - '0' as nat
  }

  function HexDigit(c: char): nat
    requires IsHex(c)
  {
    if IsDigit(c) then DigitValue(c)
    else if 'a' <= c then c as nat - 'a' as nat + 10
    else c as nat - 'A' as nat + 10
  }

  function HexValue(s: string): nat
    requires forall i :: 0 <= i < |s| ==> IsHex(s[i])
  {
    if s == "" then 0 else 16 * HexValue(s[..|s| - 1]) + HexDigit(s[|s| - 1])
  }

  predicate IsCodePoint(code: nat) {
    code <= 0x10FFFF && !(0xD800 <= code <= 0xDFFF)
  }

  /** After the backslash. */
  function ParseEscape(s: Reader): (r: Parse<char>)
    ensures r.Done? ==> |r.rest.text| < |s.text| && r.rest.nodes == s.nodes
  {
    if s.text == "" then Fail(BadEscape)
    else
      var esc, t := s.text[0], s.text[1..];
      if SimpleEscape(esc).Some? then Done(SimpleEscape(esc).value, s.(text := t))
      else if esc != 'u' && esc != 'U' then Fail(BadEscape)
      else
        var width := if esc == 'u' then 4 else 8;
        if |t| < width || exists i :: 0 <= i < width && !IsHex(t[i]) then Fail(BadEscape)
        else
          var code := HexValue(t[..width]);
          if IsCodePoint(code) then Done(code as char, s.(text := t[width..])) else Fail(BadEscape)
  }

  /** After the opening brace: the text it contributes and the addresses it references. */
  function ParseTemplate(s: Reader, marker: char): (r: Parse<(string, seq<string>)>)
    ensures r.Done? ==> |r.rest.text| < |s.text| && r.rest.nodes == s.nodes
  {
    var end := Find(s.text, '}');
    if end == |s.text| then Fail(UnterminatedTemplate)
    else
      var body, t := Strip(s.text[..end]), s.Drop(end + 1);
      if marker == '$' && IsAwsTraversal(body) then Done(("${" + body + "}", TraversalAddresses(body)), t)
      else Done(("", []), t.Problem(if marker == '%' then UnresolvedDirective else UnresolvedInterpolation(body)))
  }

  /** After the opening quote. */
  function ParseChars(s: Reader, out: string, addresses: seq<string>): (r: Parse<Value>)
    ensures r.Done? ==> |r.rest.text| < |s.text| && r.rest.nodes == s.nodes && r.value.Str?
    decreases |s.text|
  {
    if s.text == "" then Fail(UnterminatedString)
    else
      var ch, t := s.text[0], s.Drop(1);
      if ch == '"' then Done(Str(out, Dedup(addresses)), t)
      else if ch == '\\' then
        match ParseEscape(t)
        case Fail(e) => Fail(e)
        case Done(c, u) => ParseChars(u, out + [c], addresses)
      else if (ch == '$' || ch == '%') && [ch, '{'] <= t.text then ParseChars(t.Drop(2), out + [ch, '{'], addresses)
      else if (ch == '$' || ch == '%') && t.StartsWith('{') then
        match ParseTemplate(t.Drop(1), ch)
        case Fail(e) => Fail(e)
        case Done(part, u) => ParseChars(u, out + part.0, addresses + part.1)
      else ParseChars(t, out + [ch], addresses)
  }

  // ---------------------------------------------------------------- numbers and calls

  function FractionLength(s: string): (n: nat)
    ensures n <= |s|
  {
    if s != "" && s[0] == '.' && Span(s[1..], IsDigit) > 0 then 1 + Span(s[1..], IsDigit) else 0
  }

  function ExponentLength(s: string): (n: nat)
    ensures n <= |s|
  {
    if s == "" || (s[0] != 'e' && s[0] != 'E') then 0
    else
      var sign := if |s| > 1 && (s[1] == '+' || s[1] == '-') then 1 else 0;
      var n := Span(s[1 + sign..], IsDigit);
      if n == 0 then 0 else 1 + sign + n
  }

  function Decimal(digits: string): nat
    requires forall i :: 0 <= i < |digits| ==> IsDigit(digits[i])
  {
    if digits == "" then 0 else 10 * Decimal(digits[..|digits| - 1]) + DigitValue(digits[|digits| - 1])
  }

  lemma {:induction false} SpanHolds(s: string, p: char -> bool)
    ensures forall i :: 0 <= i < Span(s, p) ==> p(s[i])
  {
    if s != "" && p(s[0]) {
      SpanHolds(s[1..], p);
      forall i | 0 <= i < Span(s, p) ensures p(s[i]) {
        if i > 0 { assert s[i] == s[1..][i - 1]; }
      }
    }
  }

  /** The length of an optional sign and at least one digit, 0 when they do not lead. */
  function IntegerLength(s: string): (n: nat)
    ensures n <= |s|
  {
    var sign := if s != "" && s[0] == '-' then 1 else 0;
    var n := Span(s[sign..], IsDigit);
    if n == 0 then 0 else sign + n
  }

  predicate IsInteger(token: string) {
    forall i :: 0 <= i < |token| ==> IsDigit(token[i]) || (i == 0 && token[0] == '-')
  }

  lemma IntegersLead(s: string)
    ensures IsInteger(s[..IntegerLength(s)])
  {
    var sign := if s != "" && s[0] == '-' then 1 else 0;
    SpanHolds(s[sign..], IsDigit);
    forall i | sign <= i < sign + Span(s[sign..], IsDigit) ensures IsDigit(s[i]) {
      assert s[i] == s[sign..][i - sign];
    }
  }

  function Integer(token: string): int
    requires IsInteger(token)
  {
    if token != "" && token[0] == '-' then 0 - Decimal(token[1..]) else Decimal(token)
  }

  /** The length of a leading number, fraction and exponent included. */
  function NumberLength(s: string): (n: nat)
    ensures IntegerLength(s) <= n <= |s|
  {
    var n := IntegerLength(s);
    var f := FractionLength(s[n..]);
    n + f + ExponentLength(s[n + f..])
  }

  /** The digits of an integer, its sign not counted. */
  function DigitCount(token: string): nat {
    if token != "" && token[0] == '-' then |token| - 1 else |token|
  }

  function ParseNumber(s: Reader): (r: Parse<Value>)
    ensures r.Done? ==> |r.rest.text| < |s.text| && r.rest.nodes == s.nodes
  {
    var n := IntegerLength(s.text);
    var end := NumberLength(s.text);
    if n == 0 then Fail(BadNumber)
    else if end > n then Done(Float(s.text[..end]), s.Drop(end))
    else if DigitCount(s.text[..n]) > MAX_INT_DIGITS then Fail(TooManyDigits)
    else
      IntegersLead(s.text);
      Done(Int(Integer(s.text[..n])), s.Drop(n))
  }

  /** Inside `depth` open parentheses: everything to the one that closes them, strings included. */
  function SkipCall(s: Reader, depth: nat): (r: Parse<()>)
    requires depth > 0
    ensures r.Done? ==> |r.rest.text| < |s.text| && r.rest.nodes == s.nodes
    decreases |s.text|
  {
    if s.text == "" then Fail(UnterminatedCall)
    else if s.StartsWith('"') then
      match ParseChars(s.Drop(1), "", [])
      case Fail(e) => Fail(e)
      case Done(_, t) => SkipCall(t, depth)
    else if s.StartsWith('(') then SkipCall(s.Drop(1), depth + 1)
    else if s.StartsWith(')') then if depth == 1 then Done((), s.Drop(1)) else SkipCall(s.Drop(1), depth - 1)
    else SkipCall(s.Drop(1), depth)
  }

  // ---------------------------------------------------------------- values

  /** A word: a constant, an unsupported call, or a traversal. */
  function ParseWord(s: Reader): (r: Parse<Value>)
    requires IdentLength(s.text) > 0
    ensures r.Done? ==> |r.rest.text| < |s.text| && r.rest.nodes == s.nodes
  {
    var n := IdentLength(s.text);
    var name, t := s.text[..n], s.Drop(n);
    if name == "true" || name == "false" then Done(Bool(name == "true"), t)
    else if name == "null" then Done(Null, t)
    else
      var u := SkipWs(t);
      if u.StartsWith('(') then
        match SkipCall(u.Drop(1), 1)
        case Fail(e) => Fail(e)
        case Done(_, w) => Done(Null, w.Problem(UnsupportedFunction(name)))
      else
        var m := TailsLength(u.text);
        var traversal, w := name + u.text[..m], u.Drop(m);
        if "aws_" <= traversal then Done(Str("${" + traversal + "}", TraversalAddresses(traversal)), w)
        else Done(Null, w.Problem(UnresolvedReference(traversal)))
  }

  /** One dictionary assignment: an existing key keeps its place. */
  function Put(members: seq<(string, Value)>, key: string, v: Value): seq<(string, Value)> {
    if members == [] then [(key, v)]
    else if members[0].0 == key then [(key, v)] + members[1..]
    else [members[0]] + Put(members[1..], key, v)
  }

  function Comma(s: Reader): (t: Reader)
    ensures |t.text| <= |s.text| && t.nodes == s.nodes
  {
    if s.StartsWith(',') then s.Drop(1) else s
  }

  function ParseKey(s: Reader): (r: Parse<string>)
    ensures r.Done? ==> |r.rest.text| < |s.text| && r.rest.nodes == s.nodes
  {
    if s.StartsWith('"') then
      match ParseChars(s.Drop(1), "", [])
      case Fail(e) => Fail(e)
      case Done(v, t) => Done(v.text, t)
    else
      var n := IdentLength(s.text);
      if n == 0 then Fail(BadKey) else Done(s.text[..n], s.Drop(n))
  }

  function ParseValue(s: Reader, depth: nat): (r: Parse<Value>)
    ensures r.Done? ==> |r.rest.text| < |s.text| && s.nodes < r.rest.nodes <= MAX_EXPR_NODES
    decreases |s.text|, 0
  {
    if s.nodes + 1 > MAX_EXPR_NODES then Fail(NodeBudget)
    else if depth > MAX_EXPR_DEPTH then Fail(NestingBudget)
    else
      var t := SkipWs(s.(nodes := s.nodes + 1));
      if t.text == "" then Fail(UnexpectedEnd)
      else if t.StartsWith('{') then ParseMembers(t.Drop(1), depth, [])
      else if t.StartsWith('[') then ParseItems(t.Drop(1), depth, [])
      else if t.StartsWith('"') then ParseChars(t.Drop(1), "", [])
      else if IsDigit(t.text[0]) || t.StartsWith('-') then ParseNumber(t)
      else if IdentLength(t.text) > 0 then ParseWord(t)
      else Fail(UnexpectedToken)
  }

  /** The rest of an object, given the members read so far. */
  function ParseMembers(s: Reader, depth: nat, members: seq<(string, Value)>): (r: Parse<Value>)
    requires s.nodes <= MAX_EXPR_NODES
    ensures r.Done? ==> |r.rest.text| < |s.text| && s.nodes <= r.rest.nodes <= MAX_EXPR_NODES
    decreases |s.text|, 1
  {
    var t := SkipWs(s);
    if t.StartsWith('}') then Done(Obj(members), t.Drop(1))
    else
      match ParseKey(t)
      case Fail(e) => Fail(e)
      case Done(key, u) =>
        var w := SkipWs(u);
        if !w.StartsWith('=') then Fail(Expected('='))
        else
          match ParseValue(w.Drop(1), depth + 1)
          case Fail(e) => Fail(e)
          case Done(v, x) => ParseMembers(Comma(SkipWs(x)), depth, Put(members, key, v))
  }

  /** The rest of a list, given the items read so far. */
  function ParseItems(s: Reader, depth: nat, items: seq<Value>): (r: Parse<Value>)
    requires s.nodes <= MAX_EXPR_NODES
    ensures r.Done? ==> |r.rest.text| < |s.text| && s.nodes <= r.rest.nodes <= MAX_EXPR_NODES
    decreases |s.text|, 1
  {
    var t := SkipWs(s);
    if t.StartsWith(']') then Done(List(items), t.Drop(1))
    else
      match ParseValue(t, depth + 1)
      case Fail(e) => Fail(e)
      case Done(v, x) => ParseItems(Comma(SkipWs(x)), depth, items + [v])
  }

  datatype Evaluation = Malformed(error: Error) | Evaluated(value: Value, problems: seq<Problem>)

  function Evaluate(text: string): Evaluation {
    if |text| > MAX_EXPR_CHARS then Malformed(SizeBudget)
    else
      match ParseValue(Reader(text, 0, []), 0)
      case Fail(e) => Malformed(e)
      case Done(v, t) => if SkipWs(t).text != "" then Malformed(TrailingContent) else Evaluated(v, t.problems)
  }
}
