/** Reading XPath text back: a reader for the location paths the compiler writes, by the
    grammar of XPath 1.0 (sections 2, 3.4 and 3.7), and the proof that it finds in a written
    text exactly the paths that were written. */
module XPathRead {
  import opened Wrappers
  import opened XPathText
  import X = XPath

  /** A character XML allows in a name after the first, as far as ASCII goes. */
  predicate IsNameChar(c: char) {
    'a' <= c <= 'z' || 'A' <= c <= 'Z' || IsDigit(c) || c == '_' || c == '-' || c == '.' || c >= '\U{0080}'
  }

  predicate IsNameStart(c: char) { IsNameChar(c) && !IsDigit(c) && c != '-' && c != '.' }

  /** How many characters at the front satisfy a test. */
  function Run(text: string, test: char -> bool): (n: nat)
    ensures n <= |text| && forall c | c in text[..n] :: test(c)
  {
    if text == "" || !test(text[0]) then 0 else 1 + Run(text[1..], test)
  }

  function NameLength(text: string): (n: nat)
    ensures n <= |text|
  {
    if text == "" || !IsNameStart(text[0]) then 0 else Run(text, IsNameChar)
  }

  // ---------------------------------------------------------------- the reader

  function ReadTest(text: string): (r: Option<(X.Test, string)>)
    ensures r.Some? ==> |r.value.1| < |text|
  {
    if text != "" && text[0] == '*' then Some((X.Star, text[1..]))
    else if NameLength(text) == 0 then None
    else Some((X.Tag(text[..NameLength(text)]), text[NameLength(text)..]))
  }

  /** After "@": a name, and a literal when "=" follows. */
  function ReadAttribute(text: string): (r: Option<(X.Predicate, string)>)
    ensures r.Some? ==> |r.value.1| < |text|
  {
    var n := NameLength(text);
    if n == 0 then None
    else if n < |text| && text[n] == '=' then
      match ReadLiteral(text[n + 1..])
      case None => None
      case Some((value, rest)) => Some((X.AttributeEquals(text[..n], value), rest))
    else Some((X.HasAttribute(text[..n]), text[n..]))
  }

  /** What follows a token at the front. */
  function After(text: string, token: string): (rest: Option<string>)
    ensures rest.Some? ==> |rest.value| + |token| == |text|
  {
    if token <= text then Some(text[|token|..]) else None
  }

  /** After "contains(": whether the normalized value of an attribute, between two spaces,
      holds a text between two spaces. That is a class test when the attribute is class. */
  function ReadContains(text: string): (r: Option<(X.Predicate, string)>)
    ensures r.Some? ==> |r.value.1| < |text|
  {
    var attribute := After(text, "concat(' ', normalize-space(@");
    if attribute.None? then None
    else
      var n := NameLength(attribute.value);
      var padding := After(attribute.value[n..], "), ' '), ");
      if padding.None? || attribute.value[..n] != "class" then None else ReadClass(padding.value)
  }

  /** The class between two spaces, and the closing bracket. */
  function ReadClass(text: string): (r: Option<(X.Predicate, string)>)
    ensures r.Some? ==> |r.value.1| < |text|
  {
    match ReadLiteral(text)
    case None => None
    case Some((padded, rest)) =>
      if |padded| >= 2 && padded[0] == ' ' && padded[|padded| - 1] == ' ' && rest != "" && rest[0] == ')'
      then Some((X.ClassContains(padded[1..|padded| - 1]), rest[1..]))
      else None
  }

  function ReadPredicate(text: string): (r: Option<(X.Predicate, string)>)
    ensures r.Some? ==> |r.value.1| < |text|
    decreases |text|, 5
  {
    if text == "" then None
    else if IsDigit(text[0]) then
      var n := Run(text, IsDigit);
      Some((X.Position(Value(text[..n])), text[n..]))
    else if text[0] == '@' then ReadAttribute(text[1..])
    else if "contains(" <= text then ReadContains(text[|"contains("|..])
    else
      match ReadPaths(text, true)
      case None => None
      case Some((paths, rest)) => Some((X.Exists(paths), rest))
  }

  function ReadPredicates(text: string): (r: Option<(seq<X.Predicate>, string)>)
    ensures r.Some? ==> |r.value.1| <= |text|
    decreases |text|, 6
  {
    if text == "" || text[0] != '[' then Some(([], text))
    else
      match ReadPredicate(text[1..])
      case None => None
      case Some((p, rest)) =>
        if rest == "" || rest[0] != ']' then None
        else
          match ReadPredicates(rest[1..])
          case None => None
          case Some((ps, after)) => Some(([p] + ps, after))
  }

  function Slashes(axis: X.Axis): (text: string)
    ensures text != "" && text[0] == '/'
  {
    if axis.Deep? then "//" else "/"
  }

  function ReadAxis(text: string): (r: Option<X.Axis>) {
    if text == "" || text[0] != '/' then None
    else if 1 < |text| && text[1] == '/' then Some(X.Deep)
    else Some(X.Direct)
  }

  function ReadStep(text: string): (r: Option<(X.Step, string)>)
    ensures r.Some? ==> |r.value.1| < |text|
    decreases |text|, 1
  {
    var axis := ReadAxis(text);
    if axis.None? then None
    else
      var test := ReadTest(text[|Slashes(axis.value)|..]);
      if test.None? then None
      else
        var ps := ReadPredicates(test.value.1);
        if ps.None? then None else Some((X.Step(axis.value, test.value.0, ps.value.0), ps.value.1))
  }

  function ReadSteps(text: string): (r: Option<(seq<X.Step>, string)>)
    ensures r.Some? ==> |r.value.1| < |text|
    decreases |text|, 2
  {
    var first := ReadStep(text);
    if first.None? then None
    else if first.value.1 == "" || first.value.1[0] != '/' then Some(([first.value.0], first.value.1))
    else
      var more := ReadSteps(first.value.1);
      if more.None? then None else Some(([first.value.0] + more.value.0, more.value.1))
  }

  /** A relative path begins with the context node, and may be no more than that. */
  function ReadPath(text: string, relative: bool): (r: Option<(X.Path, string)>)
    ensures r.Some? ==> |r.value.1| < |text|
    decreases |text|, 3
  {
    if relative && (text == "" || text[0] != '.') then None
    else if relative && (|text| == 1 || text[1] != '/') then Some((X.Path([]), text[1..]))
    else
      var steps := ReadSteps(if relative then text[1..] else text);
      if steps.None? then None else Some((X.Path(steps.value.0), steps.value.1))
  }

  /** Paths joined by " | "; `relative` ones begin at the context node. */
  function ReadPaths(text: string, relative: bool): (r: Option<(seq<X.Path>, string)>)
    ensures r.Some? ==> |r.value.1| < |text|
    decreases |text|, 4
  {
    match ReadPath(text, relative)
    case None => None
    case Some((path, rest)) =>
      if !(" | " <= rest) then Some(([path], rest))
      else
        match ReadPaths(rest[|" | "|..], relative)
        case None => None
        case Some((paths, after)) => Some(([path] + paths, after))
  }

  // ---------------------------------------------------------------- what is written

  predicate IsName(name: string) { name != "" && IsNameStart(name[0]) && forall c | c in name :: IsNameChar(c) }

  predicate TestReadable(test: X.Test) { test.Tag? ==> IsName(test.name) }

  /** Names are names of XML, and absolute paths have steps. */
  predicate PredicateNamed(p: X.Predicate)
    decreases p, 0
  {
    match p
    case Position(_) => true
    case HasAttribute(name) => IsName(name)
    case AttributeEquals(name, _) => IsName(name)
    case ClassContains(_) => true
    case Exists(paths) => forall path | path in paths :: PathNamed(path, true)
  }

  predicate StepNamed(step: X.Step)
    decreases step, 0
  {
    TestReadable(step.test) && forall p | p in step.predicates :: PredicateNamed(p)
  }

  predicate PathNamed(path: X.Path, relative: bool)
    decreases path, 0
  {
    (path.steps != [] || relative) && forall step | step in path.steps :: StepNamed(step)
  }

  /** No predicate anywhere is empty. */
  predicate PredicateWhole(p: X.Predicate)
    decreases p, 0
  {
    p.Exists? ==> p.paths != [] && forall path | path in p.paths :: PathWhole(path)
  }

  predicate StepWhole(step: X.Step)
    decreases step, 0
  {
    forall p | p in step.predicates :: PredicateWhole(p)
  }

  predicate PathWhole(path: X.Path)
    decreases path, 0
  {
    forall step | step in path.steps :: StepWhole(step)
  }

  /** What reading a written text should give. */
  function Reading<T>(whole: bool, value: T, tail: string): Option<(T, string)> {
    if whole then Some((value, tail)) else None
  }

  /** What may follow a step: nothing that would continue it. */
  predicate Ends(tail: string) { tail != "" ==> !IsNameChar(tail[0]) && tail[0] != '/' && tail[0] != '[' }

  // ---------------------------------------------------------------- reading back

  lemma {:induction false} RunAt(text: string, tail: string, test: char -> bool)
    requires (forall c | c in text :: test(c)) && (tail != "" ==> !test(tail[0]))
    ensures Run(text + tail, test) == |text|
    decreases |text|
  {
    if text == "" {
      assert text + tail == tail;
    } else {
      assert text[0] in text && (text + tail)[1..] == text[1..] + tail;
      RunAt(text[1..], tail, test);
    }
  }

  lemma Split(text: string, tail: string)
    ensures (text + tail)[..|text|] == text && (text + tail)[|text|..] == tail
  {
  }

  lemma NameAt(name: string, tail: string)
    requires IsName(name) && (tail != "" ==> !IsNameChar(tail[0]))
    ensures NameLength(name + tail) == |name|
    ensures (name + tail)[..|name|] == name && (name + tail)[|name|..] == tail
  {
    RunAt(name, tail, IsNameChar);
    Split(name, tail);
    assert (name + tail)[0] == name[0];
  }

  lemma TestBack(test: X.Test, tail: string)
    requires TestReadable(test) && (tail != "" ==> !IsNameChar(tail[0]))
    ensures ReadTest(Show(test) + tail) == Some((test, tail))
  {
    match test
    case Star => assert ("*" + tail)[1..] == tail;
    case Tag(name) =>
      NameAt(name, tail);
      assert (name + tail)[0] == name[0];
  }

  lemma PositionBack(n: nat, tail: string)
    requires tail != "" && tail[0] == ']'
    ensures ReadPredicate(Decimal(n) + tail) == Some((X.Position(n), tail))
  {
    ValueBack(n);
    DecimalDigits(n);
    RunAt(Decimal(n), tail, IsDigit);
    Split(Decimal(n), tail);
    var text := Decimal(n) + tail;
    assert text[0] == Decimal(n)[0] && Decimal(n)[0] in Decimal(n);
  }

  lemma AttributeBack(name: string, tail: string)
    requires IsName(name) && tail != "" && tail[0] == ']'
    ensures ReadPredicate(("@" + name) + tail) == Some((X.HasAttribute(name), tail))
  {
    Assoc("@", name, tail);
    NameAt(name, tail);
    assert ("@" + (name + tail))[1..] == name + tail;
  }

  lemma AttributeEqualsBack(name: string, value: string, tail: string)
    requires IsName(name)
    ensures ReadPredicate(("@" + name + "=" + Literal(value)) + tail) == Some((X.AttributeEquals(name, value), tail))
  {
    var literal := Literal(value) + tail;
    Assoc("@" + name + "=", Literal(value), tail);
    Assoc("@" + name, "=", literal);
    Assoc("@", name, "=" + literal);
    var rest := name + ("=" + literal);
    assert ("@" + rest)[1..] == rest;
    NameAt(name, "=" + literal);
    assert rest[|name|..][1..] == literal && rest[|name| + 1..] == rest[|name|..][1..] && rest[|name|] == '=';
    LiteralBack(value, tail);
  }

  lemma AfterToken(token: string, rest: string)
    ensures After(token + rest, token) == Some(rest)
  {
    Split(token, rest);
  }

  /** The tokens of a written class test. */
  lemma ClassTokens(rest: string)
    ensures CLASS_TEST + rest
            == "contains(" + ("concat(' ', normalize-space(@" + ("class" + ("), ' '), " + rest)))
  {
    Assoc("class", "), ' '), ", rest);
    Assoc("concat(' ', normalize-space(@", "class" + "), ' '), ", rest);
    Assoc("contains(", "concat(' ', normalize-space(@" + ("class" + "), ' '), "), rest);
    assert CLASS_TEST == "contains(" + ("concat(' ', normalize-space(@" + ("class" + "), ' '), "));
  }

  lemma ContainsRead(rest: string)
    ensures ReadContains("concat(' ', normalize-space(@" + ("class" + ("), ' '), " + rest))) == ReadClass(rest)
  {
    AfterToken("concat(' ', normalize-space(@", "class" + ("), ' '), " + rest));
    NameAt("class", "), ' '), " + rest);
    AfterToken("), ' '), ", rest);
  }

  lemma ClassRead(rest: string)
    ensures ReadPredicate(CLASS_TEST + rest) == ReadClass(rest)
  {
    ClassTokens(rest);
    ContainsRead(rest);
    Split("contains(", "concat(' ', normalize-space(@" + ("class" + ("), ' '), " + rest)));
  }

  lemma ClassBack(word: string, tail: string)
    ensures ReadPredicate((CLASS_TEST + Literal(" " + word + " ") + ")") + tail) == Some((X.ClassContains(word), tail))
  {
    var padded := " " + word + " ";
    Assoc(CLASS_TEST + Literal(padded), ")", tail);
    Assoc(CLASS_TEST, Literal(padded), ")" + tail);
    LiteralBack(padded, ")" + tail);
    ClassRead(Literal(padded) + (")" + tail));
    assert padded[1..|padded| - 1] == word && (")" + tail)[1..] == tail;
  }

  lemma {:induction false} PredicateBack(p: X.Predicate, tail: string)
    requires PredicateNamed(p) && tail != "" && tail[0] == ']'
    ensures ReadPredicate(ShowPredicate(p) + tail) == Reading(PredicateWhole(p), p, tail)
    decreases p, 0
  {
    match p
    case Position(n) => PositionBack(n, tail);
    case HasAttribute(name) => AttributeBack(name, tail);
    case AttributeEquals(name, value) => AttributeEqualsBack(name, value, tail);
    case ClassContains(word) => ClassBack(word, tail);
    case Exists(paths) =>
      if paths == [] {
        NoText(tail);
        assert ReadPath(tail, true).None?;
      } else {
        PathsBack(paths, true, tail);
        PathsStart(paths, tail);
      }
  }

  /** Relative paths begin with a dot. */
  lemma PathsStart(paths: seq<X.Path>, tail: string)
    requires paths != []
    ensures var text := ShowPaths(paths, true) + tail; text != "" && text[0] == '.'
  {
    assert ShowPath(paths[0], true)[0] == '.';
    assert |paths| == 1 || ShowPaths(paths, true) == ShowPath(paths[0], true) + UNION + ShowPaths(paths[1..], true);
  }

  lemma {:induction false} PredicatesBack(ps: seq<X.Predicate>, tail: string)
    requires (forall p | p in ps :: PredicateNamed(p)) && (tail != "" ==> tail[0] != '[')
    ensures ReadPredicates(ShowPredicates(ps) + tail) == Reading(forall p | p in ps :: PredicateWhole(p), ps, tail)
    decreases ps, 0
  {
    if ps == [] {
      NoText(tail);
    } else {
      var more := ShowPredicates(ps[1..]) + tail;
      PredicatesWritten(ps, tail);
      PredicatesBack(ps[1..], tail);
      PredicateBack(ps[0], "]" + more);
      var body := ShowPredicate(ps[0]) + ("]" + more);
      assert ("[" + body)[1..] == body && ("]" + more)[1..] == more;
      assert [ps[0]] + ps[1..] == ps;
    }
  }

  lemma PredicatesWritten(ps: seq<X.Predicate>, tail: string)
    requires ps != []
    ensures ShowPredicates(ps) + tail == "[" + (ShowPredicate(ps[0]) + ("]" + (ShowPredicates(ps[1..]) + tail)))
  {
    var first, rest := ShowPredicate(ps[0]), ShowPredicates(ps[1..]);
    Assoc("[" + first + "]", rest, tail);
    Assoc("[" + first, "]", rest + tail);
    Assoc("[", first, "]" + (rest + tail));
  }

  /** What follows a written step's name or predicates does not continue them. */
  lemma StepsStart(steps: seq<X.Step>, tail: string)
    requires Ends(tail)
    ensures var text := ShowSteps(steps) + tail;
      text != "" ==> !IsNameChar(text[0]) && text[0] != '[' && (text[0] == '/' <==> steps != [])
  {
    if steps == [] {
      NoText(tail);
    } else {
      assert ShowStep(steps[0])[0] == '/';
    }
  }

  function StepText(step: X.Step, more: string): string {
    Slashes(step.axis) + (Show(step.test) + (ShowPredicates(step.predicates) + more))
  }

  lemma StepsWritten(steps: seq<X.Step>, tail: string)
    requires steps != []
    ensures ShowSteps(steps) + tail == StepText(steps[0], ShowSteps(steps[1..]) + tail)
  {
    var slash, test, ps := Slashes(steps[0].axis), Show(steps[0].test), ShowPredicates(steps[0].predicates);
    var rest := ShowSteps(steps[1..]);
    Assoc(slash + (test + ps), rest, tail);
    Assoc(slash, test + ps, rest + tail);
    Assoc(test, ps, rest + tail);
  }

  /** A written test begins a name, so the slashes before it are counted right. */
  lemma TestStart(test: X.Test, tail: string)
    requires TestReadable(test)
    ensures Show(test) + tail != "" && (Show(test) + tail)[0] != '/'
  {
    assert (Show(test) + tail)[0] == Show(test)[0];
  }

  /** Predicates never begin like a name. */
  lemma PredicatesStart(ps: seq<X.Predicate>, tail: string)
    requires tail != "" ==> !IsNameChar(tail[0])
    ensures var text := ShowPredicates(ps) + tail; text != "" ==> !IsNameChar(text[0])
  {
    if ps == [] {
      NoText(tail);
    } else {
      PredicatesWritten(ps, tail);
    }
  }

  lemma AxisBack(axis: X.Axis, body: string)
    requires body != "" && body[0] != '/'
    ensures var text := Slashes(axis) + body; ReadAxis(text) == Some(axis) && text[|Slashes(axis)|..] == body
  {
  }

  /** One step of the reader. */
  lemma StepRead(text: string, step: X.Step, rest: string, after: string, whole: bool)
    requires ReadAxis(text) == Some(step.axis) && ReadTest(text[|Slashes(step.axis)|..]) == Some((step.test, rest))
    requires ReadPredicates(rest) == Reading(whole, step.predicates, after)
    ensures ReadStep(text) == Reading(whole, step, after)
  {
  }

  lemma {:induction false} StepBack(step: X.Step, more: string)
    requires StepNamed(step)
    requires more != "" ==> !IsNameChar(more[0]) && more[0] != '['
    ensures ReadStep(StepText(step, more)) == Reading(StepWhole(step), step, more)
    decreases step, 0
  {
    var rest := ShowPredicates(step.predicates) + more;
    PredicatesStart(step.predicates, more);
    PredicatesBack(step.predicates, more);
    TestBack(step.test, rest);
    TestStart(step.test, rest);
    AxisBack(step.axis, Show(step.test) + rest);
    StepRead(StepText(step, more), step, rest, more, StepWhole(step));
  }

  /** One more step, or the last. */
  lemma StepsRead(text: string, step: X.Step, rest: string, first: bool)
    requires ReadStep(text) == Reading(first, step, rest)
    ensures !first ==> ReadSteps(text).None?
    ensures first && (rest == "" || rest[0] != '/') ==> ReadSteps(text) == Some(([step], rest))
    ensures first && rest != "" && rest[0] == '/' ==>
      var more := ReadSteps(rest);
      ReadSteps(text) == if more.None? then None else Some(([step] + more.value.0, more.value.1))
  {
  }

  lemma {:induction false} FirstBack(steps: seq<X.Step>, tail: string)
    requires steps != [] && StepNamed(steps[0]) && Ends(tail)
    ensures ReadStep(ShowSteps(steps) + tail) == Reading(StepWhole(steps[0]), steps[0], ShowSteps(steps[1..]) + tail)
    decreases steps, 0
  {
    StepsWritten(steps, tail);
    StepsStart(steps[1..], tail);
    StepBack(steps[0], ShowSteps(steps[1..]) + tail);
  }

  predicate AllWhole(steps: seq<X.Step>)
    decreases steps, 0
  {
    forall step | step in steps :: StepWhole(step)
  }

  lemma {:induction false} StepsBack(steps: seq<X.Step>, tail: string)
    requires steps != [] && (forall step | step in steps :: StepNamed(step)) && Ends(tail)
    ensures ReadSteps(ShowSteps(steps) + tail) == Reading(AllWhole(steps), steps, tail)
    decreases steps, 1
  {
    var rest := steps[1..];
    FirstBack(steps, tail);
    StepsStart(rest, tail);
    StepsRead(ShowSteps(steps) + tail, steps[0], ShowSteps(rest) + tail, StepWhole(steps[0]));
    if rest == [] {
      NoText(tail);
      assert steps == [steps[0]];
    } else {
      StepsBack(rest, tail);
      assert ShowSteps(rest) + tail != "";
      assert [steps[0]] + rest == steps;
      assert forall step :: step in steps <==> step == steps[0] || step in rest;
    }
  }

  lemma {:induction false} PathBack(path: X.Path, relative: bool, tail: string)
    requires PathNamed(path, relative) && Ends(tail)
    ensures ReadPath(ShowPath(path, relative) + tail, relative) == Reading(PathWhole(path), path, tail)
    decreases path, 0
  {
    var steps := ShowSteps(path.steps);
    StepsStart(path.steps, tail);
    if relative {
      Assoc(".", steps, tail);
      assert ("." + (steps + tail))[1..] == steps + tail;
    } else {
      NoText(steps);
    }
    if path.steps == [] {
      NoText(tail);
      assert path == X.Path([]);
    } else {
      StepsBack(path.steps, tail);
    }
  }

  /** Reading a written union gives its paths back, and stops where it was written to end,
      exactly when no predicate in it is empty; otherwise it is not XPath. */
  lemma {:induction false} PathsBack(paths: seq<X.Path>, relative: bool, tail: string)
    requires paths != [] && (forall path | path in paths :: PathNamed(path, relative)) && Ends(tail) && !(" | " <= tail)
    ensures ReadPaths(ShowPaths(paths, relative) + tail, relative)
            == Reading(forall path | path in paths :: PathWhole(path), paths, tail)
    decreases paths, 0
  {
    if |paths| == 1 {
      PathBack(paths[0], relative, tail);
      assert paths == [paths[0]];
    } else {
      var more := ShowPaths(paths[1..], relative) + tail;
      var first := ShowPath(paths[0], relative);
      Assoc(first + UNION, ShowPaths(paths[1..], relative), tail);
      Assoc(first, UNION, more);
      PathBack(paths[0], relative, UNION + more);
      PathsBack(paths[1..], relative, tail);
      Split(UNION, more);
      assert " | " <= UNION + more && [paths[0]] + paths[1..] == paths;
      assert forall path :: path in paths <==> path == paths[0] || path in paths[1..];
    }
  }
}
