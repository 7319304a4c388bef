/** The stateful recursive-descent reader: each method consumes `text` exactly as the grammar's function says. */
module ExpressionReader {
  import opened Expression

  datatype Outcome<T> = Raised(error: Error) | Returned(value: T)

  // ---------------------------------------------------------------- one step at a time

  lemma SkippedHasNoSpace(s: string)
    ensures Span(s, IsSpace) < |s| ==> !IsSpace(s[Span(s, IsSpace)])
  {
    if s != "" && IsSpace(s[0]) {
      SkippedHasNoSpace(s[1..]);
    }
  }

  lemma SkippingTwiceIsOnce(s: Reader)
    ensures SkipWs(SkipWs(s)) == SkipWs(s)
  {
    SkippedHasNoSpace(s.text);
    assert SkipWs(s).text[0..] == SkipWs(s).text;
  }

  lemma OneStepFurther(before: string, s: string)
    requires TailLength(s) > 0
    ensures var n := TailLength(s);
      && (before + s[..n]) + s[n..][..TailsLength(s[n..])] == before + s[..TailsLength(s)]
      && s[n..][TailsLength(s[n..])..] == s[TailsLength(s)..]
  {
  }

  class Reading {
    var text: string
    var nodes: nat
    var problems: seq<Problem>

    constructor (source: string)
      ensures Position() == Reader(source, 0, [])
    {
      text, nodes, problems := source, 0, [];
    }

    function Position(): Reader
      reads this
    {
      Reader(text, nodes, problems)
    }

    /** The method raised what the grammar refuses, or returned its value and stands at its rest. */
    ghost predicate Agrees<T>(p: Parse<T>, o: Outcome<T>)
      reads this
    {
      match p
      case Fail(e) => o == Raised(e)
      case Done(v, s) => o == Returned(v) && Position() == s
    }

    method SkipSpace()
      modifies this
      ensures Position() == SkipWs(old(Position()))
    {
      ghost var start := SkipWs(Position());
      while text != "" && IsSpace(text[0])
        invariant SkipWs(Position()) == start
        decreases |text|
      {
        assert text[1..][Span(text[1..], IsSpace)..] == text[1 + Span(text[1..], IsSpace)..];
        text := text[1..];
      }
      assert text[0..] == text;
    }

    method Take(n: nat)
      requires n <= |text|
      modifies this`text
      ensures Position() == old(Position().Drop(n))
    {
      text := text[n..];
    }

    method Expect(token: char) returns (o: Outcome<()>)
      modifies this
      ensures var t := SkipWs(old(Position()));
        Agrees(if t.StartsWith(token) then Done((), t.Drop(1)) else Fail(Error.Expected(token)), o)
    {
      SkipSpace();
      if !Position().StartsWith(token) {
        return Raised(Error.Expected(token));
      }
      Take(1);
      return Returned(());
    }

    // ---------------------------------------------------------------- strings

    method ReadEscape() returns (o: Outcome<char>)
      modifies this
      ensures Agrees(ParseEscape(old(Position())), o)
    {
      if text == "" {
        return Raised(BadEscape);
      }
      var esc := text[0];
      Take(1);
      if SimpleEscape(esc).Some? {
        return Returned(SimpleEscape(esc).value);
      }
      if esc != 'u' && esc != 'U' {
        return Raised(BadEscape);
      }
      var width := if esc == 'u' then 4 else 8;
      if |text| < width || exists i :: 0 <= i < width && !IsHex(text[i]) {
        return Raised(BadEscape);
      }
      var code := HexValue(text[..width]);
      Take(width);
      if !IsCodePoint(code) {
        return Raised(BadEscape);
      }
      return Returned(code as char);
    }

    method ReadTemplate(marker: char) returns (o: Outcome<(string, seq<string>)>)
      modifies this
      ensures Agrees(ParseTemplate(old(Position()), marker), o)
    {
      var end := Find(text, '}');
      if end == |text| {
        return Raised(UnterminatedTemplate);
      }
      var body := Strip(text[..end]);
      Take(end + 1);
      if marker == '$' && IsAwsTraversal(body) {
        return Returned(("${" + body + "}", TraversalAddresses(body)));
      }
      problems := problems + [if marker == '%' then UnresolvedDirective else UnresolvedInterpolation(body)];
      return Returned(("", []));
    }

    method ReadString() returns (o: Outcome<Value>)
      requires Position().StartsWith('"')
      modifies this
      ensures Agrees(ParseChars(old(Position().Drop(1)), "", []), o)
    {
      hide ParseEscape, ParseTemplate;
      ghost var start := ParseChars(Position().Drop(1), "", []);
      Take(1);
      var out, addresses: seq<string> := "", [];
      while text != ""
        invariant ParseChars(Position(), out, addresses) == start
        decreases |text|
      {
        var ch := text[0];
        ghost var here := Position();
        Take(1);
        if ch == '"' {
          return Returned(Str(out, Dedup(addresses)));
        } else if ch == '\\' {
          var c := ReadEscape();
          if c.Raised? {
            return Raised(c.error);
          }
          out := out + [c.value];
        } else if (ch == '$' || ch == '%') && [ch, '{'] <= text {
          out := out + [ch, '{'];
          Take(2);
        } else if (ch == '$' || ch == '%') && Position().StartsWith('{') {
          Take(1);
          var part := ReadTemplate(ch);
          if part.Raised? {
            return Raised(part.error);
          }
          out, addresses := out + part.value.0, addresses + part.value.1;
        } else {
          out := out + [ch];
        }
      }
      return Raised(UnterminatedString);
    }

    // ---------------------------------------------------------------- numbers, calls, traversals

    method ReadNumber() returns (o: Outcome<Value>)
      modifies this
      ensures Agrees(ParseNumber(old(Position())), o)
    {
      var n := IntegerLength(text);
      if n == 0 {
        return Raised(BadNumber);
      }
      var end := NumberLength(text);
      var token := text[..end];
      Take(end);
      if end > n {
        return Returned(Float(token));
      }
      if DigitCount(token) > MAX_INT_DIGITS {
        return Raised(TooManyDigits);
      }
      IntegersLead(old(text));
      return Returned(Int(Integer(token)));
    }

    method SkipParentheses() returns (o: Outcome<()>)
      requires Position().StartsWith('(')
      modifies this
      ensures Agrees(SkipCall(old(Position().Drop(1)), 1), o)
    {
      ghost var start := SkipCall(Position().Drop(1), 1);
      Take(1);
      var depth := 1;
      while text != ""
        invariant depth > 0 && SkipCall(Position(), depth) == start
        decreases |text|
      {
        if text[0] == '"' {
          var s := ReadString();
          if s.Raised? {
            return Raised(s.error);
          }
          continue;
        }
        var ch := text[0];
        Take(1);
        if ch == '(' {
          depth := depth + 1;
        } else if ch == ')' {
          depth := depth - 1;
          if depth == 0 {
            return Returned(());
          }
        }
      }
      return Raised(UnterminatedCall);
    }

    method ReadTraversal(head: string) returns (traversal: string)
      modifies this`text
      ensures var m := TailsLength(old(text));
        traversal == head + old(text)[..m] && text == old(text)[m..]
    {
      traversal := head;
      ghost var all := head + text[..TailsLength(text)];
      ghost var rest := text[TailsLength(text)..];
      while true
        invariant traversal + text[..TailsLength(text)] == all && text[TailsLength(text)..] == rest
        decreases |text|
      {
        var n := TailLength(text);
        if n == 0 {
          break;
        }
        OneStepFurther(traversal, text);
        traversal := traversal + text[..n];
        text := text[n..];
      }
    }

    method ReadWord() returns (o: Outcome<Value>)
      requires IdentLength(text) > 0
      modifies this
      ensures Agrees(ParseWord(old(Position())), o)
    {
      hide SkipCall, TailsLength, TraversalAddresses, IdentLength;
      var name := text[..IdentLength(text)];
      Take(|name|);
      if name == "true" || name == "false" {
        return Returned(Bool(name == "true"));
      }
      if name == "null" {
        return Returned(Null);
      }
      SkipSpace();
      if Position().StartsWith('(') {
        var skipped := SkipParentheses();
        if skipped.Raised? {
          return Raised(skipped.error);
        }
        problems := problems + [UnsupportedFunction(name)];
        return Returned(Null);
      }
      var traversal := ReadTraversal(name);
      if "aws_" <= traversal {
        return Returned(Str("${" + traversal + "}", TraversalAddresses(traversal)));
      }
      problems := problems + [UnresolvedReference(traversal)];
      return Returned(Null);
    }

    // ---------------------------------------------------------------- values

    method SkipComma()
      modifies this
      ensures Position() == Comma(SkipWs(old(Position())))
    {
      SkipSpace();
      if Position().StartsWith(',') {
        Take(1);
      }
    }

    method ReadKey() returns (o: Outcome<string>)
      modifies this
      ensures Agrees(ParseKey(old(Position())), o)
    {
      if Position().StartsWith('"') {
        var s := ReadString();
        return if s.Raised? then Raised(s.error) else Returned(s.value.text);
      }
      var n := IdentLength(text);
      if n == 0 {
        return Raised(BadKey);
      }
      var key := text[..n];
      Take(n);
      return Returned(key);
    }

    method ReadValue(depth: nat) returns (o: Outcome<Value>)
      modifies this
      ensures Agrees(ParseValue(old(Position()), depth), o)
      decreases |text|, 2
    {
      hide ParseItems, ParseMembers, ParseChars, ParseNumber, ParseWord, IdentLength;
      nodes := nodes + 1;
      if nodes > MAX_EXPR_NODES {
        return Raised(NodeBudget);
      }
      if depth > MAX_EXPR_DEPTH {
        return Raised(NestingBudget);
      }
      SkipSpace();
      if text == "" {
        return Raised(UnexpectedEnd);
      }
      if Position().StartsWith('{') {
        o := ReadObject(depth);
      } else if Position().StartsWith('[') {
        o := ReadList(depth);
      } else if Position().StartsWith('"') {
        o := ReadString();
      } else if IsDigit(text[0]) || Position().StartsWith('-') {
        o := ReadNumber();
      } else if IdentLength(text) > 0 {
        o := ReadWord();
      } else {
        o := Raised(UnexpectedToken);
      }
    }

    method ReadObject(depth: nat) returns (o: Outcome<Value>)
      requires Position().StartsWith('{') && nodes <= MAX_EXPR_NODES
      modifies this
      ensures Agrees(ParseMembers(old(Position().Drop(1)), depth, []), o)
      decreases |text|, 1
    {
      hide ParseValue, ParseKey, Put;
      ghost var start := ParseMembers(Position().Drop(1), depth, []);
      Take(1);
      var members := [];
      while true
        invariant |text| < old(|text|) && nodes <= MAX_EXPR_NODES
        invariant ParseMembers(Position(), depth, members) == start
        decreases |text|
      {
        ghost var here := Position();
        SkipSpace();
        if Position().StartsWith('}') {
          Take(1);
          return Returned(Obj(members));
        }
        var key := ReadKey();
        if key.Raised? {
          return Raised(key.error);
        }
        ghost var u := Position();
        SkipSpace();
        SkippingTwiceIsOnce(u);
        var sign := Expect('=');
        if sign.Raised? {
          return Raised(sign.error);
        }
        var v := ReadValue(depth + 1);
        if v.Raised? {
          return Raised(v.error);
        }
        members := Put(members, key.value, v.value);
        SkipComma();
      }
    }

    method ReadList(depth: nat) returns (o: Outcome<Value>)
      requires Position().StartsWith('[') && nodes <= MAX_EXPR_NODES
      modifies this
      ensures Agrees(ParseItems(old(Position().Drop(1)), depth, []), o)
      decreases |text|, 1
    {
      hide ParseValue;
      ghost var start := ParseItems(Position().Drop(1), depth, []);
      Take(1);
      var items := [];
      while true
        invariant |text| < old(|text|) && nodes <= MAX_EXPR_NODES
        invariant ParseItems(Position(), depth, items) == start
        decreases |text|
      {
        SkipSpace();
        if Position().StartsWith(']') {
          Take(1);
          return Returned(List(items));
        }
        var v := ReadValue(depth + 1);
        if v.Raised? {
          return Raised(v.error);
        }
        items := items + [v.value];
        SkipComma();
      }
    }
  }

  method EvaluateExpression(text: string) returns (r: Evaluation)
    ensures r == Evaluate(text)
  {
    if |text| > MAX_EXPR_CHARS {
      return Malformed(SizeBudget);
    }
    var reader := new Reading(text);
    var o := reader.ReadValue(0);
    if o.Raised? {
      return Malformed(o.error);
    }
    reader.SkipSpace();
    if reader.text != "" {
      return Malformed(TrailingContent);
    }
    return Evaluated(o.value, reader.problems);
  }
}
