/** A printer for the expression grammar: what an expression means, and how it is written down. */
module ExpressionPrinter {
  import opened Expression

  /** One step of a traversal: `.name` or `[digits]`. */
  datatype Tail = Attr(name: string) | Index(digits: string)

  datatype Traversal = Traversal(head: string, tails: seq<Tail>)

  /**
   * A piece of a template string: one literal character, one written as a code point -- four or eight digits, each in
   * either case -- or one genuine `${aws_…}` reference.
   */
  datatype Part = Char(c: char) | Code(c: char, upper: seq<bool>) | Ref(traversal: Traversal)

  datatype Member = Member(key: string, bare: bool, value: Expr)

  datatype Expr =
    | ENull
    | EBool(b: bool)
    | EInt(n: int)
    | EFloat(token: string)
    | EStr(parts: seq<Part>)
    | ERef(traversal: Traversal)
    | EList(items: seq<Expr>)
    | EObj(members: seq<Member>)

  // ---------------------------------------------------------------- which expressions there are

  predicate IsIdentifier(s: string) {
    && s != "" && !('0' <= s[0] <= '9')
    && forall i :: 0 <= i < |s| ==> 'a' <= s[i] <= 'z' || 'A' <= s[i] <= 'Z' || s[i] == '_' || '0' <= s[i] <= '9'
  }

  predicate WellFormedTraversal(t: Traversal) {
    "aws_" <= t.head && IsIdentifier(t.head) && WellFormedTails(t.tails)
  }

  predicate WellFormedTails(tails: seq<Tail>) {
    forall i :: 0 <= i < |tails| ==> WellFormedTail(tails[i])
  }

  predicate WellFormedTail(t: Tail) {
    match t
    case Attr(name) => IsIdentifier(name)
    case Index(digits) => digits != "" && forall i :: 0 <= i < |digits| ==> IsDigit(digits[i])
  }

  /** In a template a traversal has at least one step, and four digits reach only so far. */
  predicate WellFormedPart(p: Part) {
    match p
    case Char(_) => true
    case Code(c, upper) => |upper| == 8 || (|upper| == 4 && c < '\U{10000}')
    case Ref(t) => WellFormedTraversal(t) && t.tails != []
  }

  predicate WellFormedParts(parts: seq<Part>) {
    forall i :: 0 <= i < |parts| ==> WellFormedPart(parts[i])
  }

  /** A number with a fraction or an exponent. */
  predicate IsFloat(token: string) {
    0 < IntegerLength(token) < NumberLength(token) == |token|
  }

  /** Bare keys are identifiers, and no key occurs twice. */
  predicate KeysFit(members: seq<Member>) {
    && (forall i :: 0 <= i < |members| && members[i].bare ==> IsIdentifier(members[i].key))
    && forall i, j :: 0 <= i < j < |members| ==> members[i].key != members[j].key
  }

  /** An integer that can be written with the digits a literal may have. */
  predicate IsReadable(n: int) {
    |Natural(Magnitude(n))| <= 4300
  }

  function Magnitude(n: int): nat {
    if n < 0 then -n else n
  }

  predicate WellFormed(e: Expr) {
    match e
    case EInt(n) => IsReadable(n)
    case EFloat(token) => IsFloat(token)
    case EStr(parts) => WellFormedParts(parts)
    case ERef(t) => WellFormedTraversal(t)
    case EList(items) => forall i :: 0 <= i < |items| ==> WellFormed(items[i])
    case EObj(members) => KeysFit(members) && forall i :: 0 <= i < |members| ==> WellFormed(members[i].value)
    case _ => true
  }

  // ---------------------------------------------------------------- what an expression means

  /** The resource a traversal names: `type.name`, unless the resource itself is indexed. */
  function Addresses(t: Traversal): seq<string> {
    if t.tails != [] && |t.head| > 4 && (forall i :: 0 <= i < |t.head| ==> IsTypePart(t.head[i])) && t.tails[0].Attr?
       && (|t.tails| == 1 || t.tails[1].Attr?)
    then [t.head + "." + t.tails[0].name]
    else []
  }

  function PartText(p: Part): string {
    match p
    case Char(c) => [c]
    case Code(c, _) => [c]
    case Ref(t) => "${" + TraversalText(t) + "}"
  }

  function PartsText(parts: seq<Part>): string {
    if parts == [] then "" else PartText(parts[0]) + PartsText(parts[1..])
  }

  /** Only references contribute; literal text that merely looks like one does not. */
  function PartAddresses(p: Part): seq<string> {
    match p
    case Char(_) => []
    case Code(_, _) => []
    case Ref(t) => Addresses(t)
  }

  function PartsAddresses(parts: seq<Part>): seq<string> {
    if parts == [] then [] else PartAddresses(parts[0]) + PartsAddresses(parts[1..])
  }

  function Meaning(e: Expr): Value
    requires WellFormed(e)
  {
    match e
    case ENull => Null
    case EBool(b) => Bool(b)
    case EInt(n) => Int(n)
    case EFloat(token) => Float(token)
    case EStr(parts) => Str(PartsText(parts), Dedup(PartsAddresses(parts)))
    case ERef(t) => Str("${" + TraversalText(t) + "}", Addresses(t))
    case EList(items) => List(Meanings(items))
    case EObj(members) => Obj(MemberMeanings(members))
  }

  function Meanings(items: seq<Expr>): seq<Value>
    requires forall i :: 0 <= i < |items| ==> WellFormed(items[i])
  {
    if items == [] then [] else [Meaning(items[0])] + Meanings(items[1..])
  }

  function MemberMeanings(members: seq<Member>): seq<(string, Value)>
    requires forall i :: 0 <= i < |members| ==> WellFormed(members[i].value)
  {
    if members == [] then [] else [(members[0].key, Meaning(members[0].value))] + MemberMeanings(members[1..])
  }

  // ---------------------------------------------------------------- how much of the budgets it takes

  function Nodes(e: Expr): (n: nat)
    ensures n > 0
  {
    match e
    case EList(items) => 1 + ItemNodes(items)
    case EObj(members) => 1 + MemberNodes(members)
    case _ => 1
  }

  function ItemNodes(items: seq<Expr>): nat {
    if items == [] then 0 else Nodes(items[0]) + ItemNodes(items[1..])
  }

  function MemberNodes(members: seq<Member>): nat {
    if members == [] then 0 else Nodes(members[0].value) + MemberNodes(members[1..])
  }

  /** Nothing nests deeper than `room` levels below this expression. */
  predicate Fits(e: Expr, room: int) {
    && room >= 0
    && match e
       case EList(items) => forall i :: 0 <= i < |items| ==> Fits(items[i], room - 1)
       case EObj(members) => forall i :: 0 <= i < |members| ==> Fits(members[i].value, room - 1)
       case _ => true
  }

  // ---------------------------------------------------------------- how it is written

  function Digit(n: nat): (c: char)
    requires n < 10
    ensures IsDigit(c) && DigitValue(c) == n
  {
    ('0' as nat + n) as char
  }

  function Natural(n: nat): string {
    if n < 10 then [Digit(n)] else Natural(n / 10) + [Digit(n % 10)]
  }

  function TailText(t: Tail): string {
    match t
    case Attr(name) => "." + name
    case Index(digits) => "[" + digits + "]"
  }

  function TailsText(tails: seq<Tail>): string {
    if tails == [] then "" else TailText(tails[0]) + TailsText(tails[1..])
  }

  function TraversalText(t: Traversal): string {
    t.head + TailsText(t.tails)
  }

  function Escaped(c: char): string {
    match c
    case '\n' => "\\n"
    case '\t' => "\\t"
    case '\r' => "\\r"
    case '"' => "\\\""
    case '\\' => "\\\\"
    case _ => [c]
  }

  const LOWER := "0123456789abcdef"
  const UPPER := "0123456789ABCDEF"

  /** A number in so many hexadecimal digits, each in the case asked for. */
  function HexText(n: nat, upper: seq<bool>): (s: string)
    ensures |s| == |upper|
  {
    if upper == [] then ""
    else
      var last := |upper| - 1;
      HexText(n / 16, upper[..last]) + [(if upper[last] then UPPER else LOWER)[n % 16]]
  }

  function CodeText(c: char, upper: seq<bool>): string {
    "\\" + (if |upper| == 4 then "u" else "U") + HexText(c as nat, upper)
  }

  /**
   * The inside of a quoted string. A literal `${` or `%{` doubles its marker; a literal `$` right before a reference
   * is written as a code point, because `$${` would be read as a literal.
   */
  function RenderParts(parts: seq<Part>): string {
    if parts == [] then ""
    else if parts[0].Ref? then PartText(parts[0]) + RenderParts(parts[1..])
    else if parts[0].Code? then CodeText(parts[0].c, parts[0].upper) + RenderParts(parts[1..])
    else
      var c := parts[0].c;
      if (c == '$' || c == '%') && |parts| > 1 && parts[1] == Char('{') then [c, c, '{'] + RenderParts(parts[2..])
      else if c == '$' && |parts| > 1 && parts[1].Ref? then "\\u0024" + RenderParts(parts[1..])
      else Escaped(c) + RenderParts(parts[1..])
  }

  function Literal(s: string): (parts: seq<Part>)
    ensures |parts| == |s| && forall i :: 0 <= i < |s| ==> parts[i] == Char(s[i])
  {
    seq(|s|, i requires 0 <= i < |s| => Char(s[i]))
  }

  function Quoted(parts: seq<Part>): string {
    "\"" + RenderParts(parts) + "\""
  }

  function RenderKey(m: Member): string {
    if m.bare then m.key else Quoted(Literal(m.key))
  }

  function Render(e: Expr): string {
    match e
    case ENull => "null"
    case EBool(b) => if b then "true" else "false"
    case EInt(n) => (if n < 0 then "-" else "") + Natural(Magnitude(n))
    case EFloat(token) => token
    case EStr(parts) => Quoted(parts)
    case ERef(t) => TraversalText(t)
    case EList(items) => "[" + RenderItems(items) + "]"
    case EObj(members) => "{" + RenderMembers(members) + "}"
  }

  function RenderItems(items: seq<Expr>): string {
    if items == [] then ""
    else Render(items[0]) + if |items| == 1 then "" else ", " + RenderItems(items[1..])
  }

  function RenderMembers(members: seq<Member>): string {
    if members == [] then ""
    else
      RenderKey(members[0]) + " = " + Render(members[0].value)
      + if |members| == 1 then "" else ", " + RenderMembers(members[1..])
  }
}
