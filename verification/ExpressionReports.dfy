/** What the reader cannot resolve it consumes whole and reports once: calls, other traversals, other templates. */
module ExpressionReports {
  import opened Expression
  import opened ExpressionPrinter
  import opened ExpressionTokens
  import opened ExpressionRoundTrip
  import opened Sequences

  /** A piece of the text between parentheses: a character, a quoted string, or a group in parentheses of its own. */
  datatype Piece = Other(c: char) | Text(parts: seq<Part>) | Group(inner: seq<Piece>)

  predicate IsOther(c: char) {
    c != '"' && c != '(' && c != ')'
  }

  predicate WellFormedPiece(p: Piece) {
    match p
    case Other(c) => IsOther(c)
    case Text(parts) => WellFormedParts(parts)
    case Group(inner) => forall i :: 0 <= i < |inner| ==> WellFormedPiece(inner[i])
  }

  function PieceText(p: Piece): string {
    match p
    case Other(c) => [c]
    case Text(parts) => Quoted(parts)
    case Group(inner) => "(" + PiecesText(inner) + ")"
  }

  function PiecesText(pieces: seq<Piece>): string {
    if pieces == [] then "" else PieceText(pieces[0]) + PiecesText(pieces[1..])
  }

  lemma OtherIsSkipped(c: char, rest: string, n: nat, problems: seq<Problem>, depth: nat)
    requires depth > 0 && IsOther(c)
    ensures SkipCall(Reader([c] + rest, n, problems), depth) == SkipCall(Reader(rest, n, problems), depth)
  {
    Halves([c], rest);
  }

  lemma TextIsSkipped(parts: seq<Part>, rest: string, n: nat, problems: seq<Problem>, depth: nat)
    requires depth > 0 && WellFormedParts(parts)
    ensures SkipCall(Reader(Quoted(parts) + rest, n, problems), depth) == SkipCall(Reader(rest, n, problems), depth)
  {
    hide ParseChars, RenderParts;
    QuotedText(parts, rest);
    StringReadsBack(parts, rest, n, problems);
  }

  lemma OpenDeepens(rest: string, n: nat, problems: seq<Problem>, depth: nat)
    requires depth > 0
    ensures SkipCall(Reader("(" + rest, n, problems), depth) == SkipCall(Reader(rest, n, problems), depth + 1)
  {
    Halves("(", rest);
  }

  lemma CloseReturns(rest: string, n: nat, problems: seq<Problem>, depth: nat)
    requires depth > 0
    ensures SkipCall(Reader(")" + rest, n, problems), depth)
         == if depth == 1 then Done((), Reader(rest, n, problems)) else SkipCall(Reader(rest, n, problems), depth - 1)
  {
    Halves(")", rest);
  }

  /** Balanced text leaves the depth where it was. */
  lemma {:induction false} PiecesAreSkipped(pieces: seq<Piece>, rest: string, n: nat, problems: seq<Problem>,
                                            depth: nat)
    requires depth > 0 && forall i :: 0 <= i < |pieces| ==> WellFormedPiece(pieces[i])
    ensures SkipCall(Reader(PiecesText(pieces) + rest, n, problems), depth)
         == SkipCall(Reader(rest, n, problems), depth)
    decreases pieces, 0
  {
    hide SkipCall;
    if pieces == [] {
      assert PiecesText(pieces) + rest == rest;
    } else {
      Regroup(PieceText(pieces[0]), PiecesText(pieces[1..]), rest);
      PieceIsSkipped(pieces[0], PiecesText(pieces[1..]) + rest, n, problems, depth);
      PiecesAreSkipped(pieces[1..], rest, n, problems, depth);
    }
  }

  lemma {:induction false} PieceIsSkipped(p: Piece, rest: string, n: nat, problems: seq<Problem>, depth: nat)
    requires depth > 0 && WellFormedPiece(p)
    ensures SkipCall(Reader(PieceText(p) + rest, n, problems), depth) == SkipCall(Reader(rest, n, problems), depth)
    decreases p, 1
  {
    hide SkipCall, Quoted;
    match p {
      case Other(c) => OtherIsSkipped(c, rest, n, problems, depth);
      case Text(parts) => TextIsSkipped(parts, rest, n, problems, depth);
      case Group(inner) =>
        var inside := PiecesText(inner);
        Regroup("(", inside, ")");
        Regroup("(", inside + ")", rest);
        Regroup(inside, ")", rest);
        OpenDeepens(inside + (")" + rest), n, problems, depth);
        PiecesAreSkipped(inner, ")" + rest, n, problems, depth + 1);
        CloseReturns(rest, n, problems, depth + 1);
    }
  }

  predicate IsName(name: string) {
    IsIdentifier(name) && name != "true" && name != "false" && name != "null"
  }

  lemma NameLeads(name: string, after: string)
    requires IsIdentifier(name) && Ends(after, IsPart)
    ensures IdentLength(name + after) == |name|
  {
    SpanExact(name, after, IsPart);
  }

  lemma CallStep(name: string, inside: string, t: Reader, n: nat, problems: seq<Problem>)
    requires IsName(name) && IdentLength(name + ("(" + inside)) == |name| && !IsSpace('(')
    requires SkipCall(Reader(inside, n, problems), 1) == Done((), t)
    ensures ParseWord(Reader(name + ("(" + inside), n, problems)) == Done(Null, t.Problem(UnsupportedFunction(name)))
  {
    hide SkipCall, IdentLength, IsIdentifier, SkipWs, IsSpace, TailsLength, TraversalAddresses;
    Halves(name, "(" + inside);
    Halves("(", inside);
    NothingToSkip(Reader("(" + inside, n, problems));
    assert Reader("(" + inside, n, problems).Drop(1) == Reader(inside, n, problems);
  }

  /** An unsupported call is consumed up to its own closing parenthesis, valued null and reported by name. */
  lemma CallIsReported(name: string, pieces: seq<Piece>, rest: string, n: nat, problems: seq<Problem>)
    requires IsName(name) && forall i :: 0 <= i < |pieces| ==> WellFormedPiece(pieces[i])
    ensures var s := name + ("(" + (PiecesText(pieces) + (")" + rest)));
      && IdentLength(s) == |name|
      && ParseWord(Reader(s, n, problems)) == Done(Null, Reader(rest, n, problems + [UnsupportedFunction(name)]))
  {
    hide SkipCall, IdentLength, PiecesText, ParseWord;
    var inside := PiecesText(pieces) + (")" + rest);
    NameLeads(name, "(" + inside);
    PiecesAreSkipped(pieces, ")" + rest, n, problems, 1);
    CloseReturns(rest, n, problems, 1);
    CallStep(name, inside, Reader(rest, n, problems), n, problems);
  }

  lemma TraversalStep(name: string, steps: string, rest: string, n: nat, problems: seq<Problem>)
    requires IsName(name) && IdentLength(name + (steps + rest)) == |name| && !("aws_" <= name + steps)
    requires var u := steps + rest; (u == "" || (!IsSpace(u[0]) && u[0] != '(')) && TailsLength(u) == |steps|
    ensures ParseWord(Reader(name + (steps + rest), n, problems))
         == Done(Null, Reader(rest, n, problems + [UnresolvedReference(name + steps)]))
  {
    hide SkipCall, IdentLength, IsIdentifier, SkipWs, IsSpace, TailsLength, TraversalAddresses;
    Halves(name, steps + rest);
    Halves(steps, rest);
    NothingToSkip(Reader(steps + rest, n, problems));
    assert Reader(name + (steps + rest), n, problems).Drop(|name|) == Reader(steps + rest, n, problems);
  }

  /** A traversal outside the provider's is consumed whole, valued null and reported as written. */
  lemma TraversalIsReported(name: string, tails: seq<Tail>, rest: string, n: nat, problems: seq<Problem>)
    requires IsName(name) && WellFormedTails(tails) && Stops(rest) && !("aws_" <= name + TailsText(tails))
    ensures var s := name + (TailsText(tails) + rest);
      && IdentLength(s) == |name|
      && ParseWord(Reader(s, n, problems))
         == Done(Null, Reader(rest, n, problems + [UnresolvedReference(name + TailsText(tails))]))
  {
    hide ParseWord, IdentLength, TailsText, TailsLength;
    TailsStart(tails, rest);
    NameLeads(name, TailsText(tails) + rest);
    TailsOpen(tails, rest);
    TailsRead(tails, rest);
    TraversalStep(name, TailsText(tails), rest, n, problems);
  }

  /** A template sequence that is no genuine reference adds no text and no address, and is reported. */
  lemma TemplateIsReported(marker: char, body: string, rest: string, n: nat, problems: seq<Problem>)
    requires IsMarker(marker) && '}' !in body && (marker == '$' ==> !IsAwsTraversal(Strip(body)))
    ensures ParseTemplate(Reader(body + ("}" + rest), n, problems), marker)
         == Done(("", []), Reader(rest, n,
                 problems + [if marker == '%' then UnresolvedDirective else UnresolvedInterpolation(Strip(body))]))
  {
    hide IsAwsTraversal, Strip, TraversalAddresses;
    FindExact(body, "}" + rest, '}');
    Halves(body, "}" + rest);
    assert (body + ("}" + rest))[|body| + 1..] == rest;
  }
}
