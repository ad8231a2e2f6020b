/** How the compiler writes XPath, and how XPath 1.0 reads a string literal back. */
module XPathText {
  import opened Wrappers
  import X = XPath

  // ---------------------------------------------------------------- string literals

  /** The pieces of a text between single quotes, as split("'") gives them. */
  function Pieces(text: string): (pieces: seq<string>)
    ensures pieces != []
  {
    if text == "" then [""]
    else if text[0] == '\'' then [""] + Pieces(text[1..])
    else
      var rest := Pieces(text[1..]);
      [[text[0]] + rest[0]] + rest[1..]
  }

  /** The pieces as arguments of concat(), with a quoted single quote between them. */
  function Arguments(pieces: seq<string>): string
    requires pieces != []
  {
    if |pieces| == 1 then "'" + (pieces[0] + "'")
    else "'" + (pieces[0] + ("'" + (",\"'\"," + Arguments(pieces[1..]))))
  }

  /** A text as an XPath expression; XPath 1.0 literals have no escapes. */
  function Literal(value: string): string {
    if '\'' !in value then "'" + (value + "'")
    else if '"' !in value then "\"" + (value + "\"")
    else "concat(" + (Arguments(Pieces(value)) + ")")
  }

  /** Reading one quoted literal (XPath 1.0, section 3.7): its text and what follows. */
  function ReadQuoted(text: string): (r: Option<(string, string)>)
    ensures r.Some? ==> |r.value.1| < |text|
  {
    if text == "" || (text[0] != '"' && text[0] != '\'') then None
    else
      match Find(text[1..], text[0])
      case None => None
      case Some(n) => Some((text[1..][..n], text[1..][n + 1..]))
  }

  function Find(text: string, c: char): (n: Option<nat>)
    ensures n.Some? ==> n.value < |text| && text[n.value] == c
  {
    if text == "" then None
    else if text[0] == c then Some(0)
    else match Find(text[1..], c) case None => None case Some(n) => Some(n + 1)
  }

  /** The string value of the arguments of concat() and what follows its closing bracket. */
  function ReadArguments(text: string): (r: Option<(string, string)>)
    ensures r.Some? ==> |r.value.1| < |text|
    decreases |text|
  {
    match ReadQuoted(text)
    case None => None
    case Some((value, rest)) =>
      if rest != "" && rest[0] == ')' then Some((value, rest[1..]))
      else if rest != "" && rest[0] == ',' then
        match ReadArguments(rest[1..])
        case None => None
        case Some((more, after)) => Some((value + more, after))
      else None
  }

  /** The value of a string expression the compiler may write, and what follows it. */
  function ReadLiteral(text: string): (r: Option<(string, string)>)
    ensures r.Some? ==> |r.value.1| < |text|
  {
    if "concat(" <= text then ReadArguments(text[|"concat("|..]) else ReadQuoted(text)
  }

  lemma {:induction false} FindAt(value: string, c: char, tail: string)
    requires c !in value
    ensures Find(value + ([c] + tail), c) == Some(|value|)
    decreases |value|
  {
    var text := value + ([c] + tail);
    if value == "" {
      assert text == [c] + tail;
    } else {
      assert text[0] == value[0] && value[0] in value && text[1..] == value[1..] + ([c] + tail);
      FindAt(value[1..], c, tail);
    }
  }

  lemma ReadQuotedAt(quote: char, value: string, tail: string)
    requires (quote == '"' || quote == '\'') && quote !in value
    ensures ReadQuoted([quote] + (value + ([quote] + tail))) == Some((value, tail))
  {
    var body := value + ([quote] + tail);
    FindAt(value, quote, tail);
    assert ([quote] + body)[1..] == body && body[..|value|] == value && body[|value| + 1..] == tail;
  }

  lemma {:induction false} PiecesLackQuotes(text: string)
    ensures forall p | p in Pieces(text) :: '\'' !in p
    decreases |text|
  {
    if text != "" {
      PiecesLackQuotes(text[1..]);
      var rest := Pieces(text[1..]);
      assert rest[0] in rest && forall p | p in rest[1..] :: p in rest;
    }
  }

  /** The text whose pieces these are. */
  function Quoted(pieces: seq<string>): string
    requires pieces != []
  {
    if |pieces| == 1 then pieces[0] else pieces[0] + ("'" + Quoted(pieces[1..]))
  }

  lemma {:induction false} QuotedPieces(text: string)
    ensures Quoted(Pieces(text)) == text
    decreases |text|
  {
    if text != "" {
      QuotedPieces(text[1..]);
      var rest := Pieces(text[1..]);
      assert text == [text[0]] + text[1..];
      if text[0] == '\'' {
        assert ([""] + rest)[1..] == rest;
      } else {
        var all := [[text[0]] + rest[0]] + rest[1..];
        assert all[1..] == rest[1..];
        assert |rest| > 1 ==>
            [text[0]] + (rest[0] + ("'" + Quoted(rest[1..]))) == ([text[0]] + rest[0]) + ("'" + Quoted(rest[1..]));
      }
    }
  }

  lemma ArgumentsWritten(pieces: seq<string>, tail: string)
    requires pieces != []
    ensures Arguments(pieces) + tail
            == "'" + (pieces[0] + ("'" + if |pieces| == 1 then tail else ",\"'\"," + (Arguments(pieces[1..]) + tail)))
  {
    if |pieces| == 1 {
      Assoc("'", pieces[0] + "'", tail);
      Assoc(pieces[0], "'", tail);
    } else {
      var more := Arguments(pieces[1..]);
      Assoc("'", pieces[0] + ("'" + (",\"'\"," + more)), tail);
      Assoc(pieces[0], "'" + (",\"'\"," + more), tail);
      Assoc("'", ",\"'\"," + more, tail);
      Assoc(",\"'\",", more, tail);
    }
  }

  lemma {:induction false} ArgumentsBack(pieces: seq<string>, tail: string)
    requires pieces != [] && forall p | p in pieces :: '\'' !in p
    ensures ReadArguments(Arguments(pieces) + (")" + tail)) == Some((Quoted(pieces), tail))
    decreases |pieces|
  {
    var end := ")" + tail;
    ArgumentsWritten(pieces, end);
    if |pieces| == 1 {
      ReadQuotedAt('\'', pieces[0], end);
      assert end[1..] == tail;
    } else {
      var more := Arguments(pieces[1..]) + end;
      ArgumentsBack(pieces[1..], tail);
      ReadQuotedAt('\'', pieces[0], ",\"'\"," + more);
      SeparatorBack(more);
    }
  }

  /** After one argument: a comma, the quoted single quote, a comma, and the rest. */
  lemma SeparatorBack(more: string)
    ensures var after := ",\"'\"," + more;
      && after[0] == ','
      && ReadArguments(after[1..])
          == match ReadArguments(more) case None => None case Some((m, end)) => Some(("'" + m, end))
  {
    var after, rest := ",\"'\"," + more, "," + more;
    assert after[1..] == "\"" + ("'" + ("\"" + rest));
    ReadQuotedAt('"', "'", rest);
    assert rest[0] == ',' && rest[1..] == more;
  }

  lemma QuotedBack(quote: char, value: string, tail: string)
    requires (quote == '"' || quote == '\'') && quote !in value
    ensures ReadLiteral(([quote] + (value + [quote])) + tail) == Some((value, tail))
  {
    Assoc([quote], value + [quote], tail);
    Assoc(value, [quote], tail);
    var text := [quote] + (value + ([quote] + tail));
    ReadQuotedAt(quote, value, tail);
    assert text[0] == quote && "concat("[0] == 'c';
  }

  lemma ConcatBack(value: string, tail: string)
    ensures ReadLiteral(("concat(" + (Arguments(Pieces(value)) + ")")) + tail) == Some((value, tail))
  {
    PiecesLackQuotes(value);
    QuotedPieces(value);
    ArgumentsBack(Pieces(value), tail);
    Assoc("concat(", Arguments(Pieces(value)) + ")", tail);
    Assoc(Arguments(Pieces(value)), ")", tail);
    var body := Arguments(Pieces(value)) + (")" + tail);
    assert ("concat(" + body)[|"concat("|..] == body;
  }

  /** A compiled literal evaluates to the text it stands for, whatever quotes it holds, and
      ends where it was written to end. */
  lemma LiteralBack(value: string, tail: string)
    ensures ReadLiteral(Literal(value) + tail) == Some((value, tail))
  {
    if '\'' !in value {
      QuotedBack('\'', value, tail);
    } else if '"' !in value {
      QuotedBack('"', value, tail);
    } else {
      ConcatBack(value, tail);
    }
  }

  // ---------------------------------------------------------------- location paths

  const CLASS_TEST := "contains(" + "concat(' ', normalize-space(@class), ' '), "
  const UNION := " | "

  function Show(test: X.Test): string {
    match test
    case Star => "*"
    case Tag(name) => name
  }

  function ShowPredicate(p: X.Predicate): string
    decreases p, 0
  {
    match p
    case Position(n) => Decimal(n)
    case HasAttribute(name) => "@" + name
    case AttributeEquals(name, value) => "@" + name + "=" + Literal(value)
    case ClassContains(word) =>
      CLASS_TEST + Literal(" " + word + " ") + ")"
    case Exists(paths) => ShowPaths(paths, true)
  }

  function ShowPredicates(ps: seq<X.Predicate>): string
    decreases ps, 0
  {
    if ps == [] then "" else "[" + ShowPredicate(ps[0]) + "]" + ShowPredicates(ps[1..])
  }

  function ShowStep(step: X.Step): string
    decreases step, 0
  {
    (if step.axis.Deep? then "//" else "/") + (Show(step.test) + ShowPredicates(step.predicates))
  }

  function ShowSteps(steps: seq<X.Step>): string
    decreases steps, 0
  {
    if steps == [] then "" else ShowStep(steps[0]) + ShowSteps(steps[1..])
  }

  /** Within a predicate, and for a field of a card, a path starts at the context node. */
  function ShowPath(path: X.Path, relative: bool): string
    decreases path, 0
  {
    (if relative then "." else "") + ShowSteps(path.steps)
  }

  function ShowPaths(paths: seq<X.Path>, relative: bool): string
    decreases paths, 0
  {
    if paths == [] then ""
    else if |paths| == 1 then ShowPath(paths[0], relative)
    else ShowPath(paths[0], relative) + UNION + ShowPaths(paths[1..], relative)
  }
}
