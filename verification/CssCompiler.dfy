/** The compiler of internal/web/assets/selector-frame.js, text to text, loop by loop,
    and what its output means. */
module CssCompiler {
  import opened Wrappers
  import opened CssText
  import opened CssParse
  import C = Css
  import X = XPath
  import T = XPathText
  import opened CssToXPath
  import CssParseSound
  import CssParseComplete
  import D = Document

  datatype Reason =
    | Escapes | Unbalanced | TooDeep | NoParent | UnknownCombinator | IncompleteChild | NoSelector
    | WildcardCount | UnbalancedHas | Unknown

  // ---------------------------------------------------------------- the XPath written for a selector

  function TagOrAny(tag: string): string { if tag == "" then "*" else tag }

  function EmitSimple(s: SimpleText): string
    decreases s, 0
  {
    match s
    case ClassText(name) =>
      T.CLASS_TEST + T.Literal(" " + name + " ") + ")"
    case IdText(name) => "@id=" + T.Literal(name)
    case AttributeText(name) => "@" + name
    case AttributeIsText(name, _, _, _, value) => "@" + name + "=" + T.Literal(value)
    case NthText(digits) => digits
    case HasText(groups) => EmitGroups(groups, true)
    case HasRaw(raw) => raw
  }

  /** The bracketed predicates of the :nth-of-type of a compound, or of everything else. */
  function EmitSome(simples: seq<SimpleText>, counts: bool): string
    decreases simples, 0
  {
    if simples == [] then ""
    else
      (if simples[0].NthText? == counts then "[" + EmitSimple(simples[0]) + "]" else "")
      + EmitSome(simples[1..], counts)
  }

  function EmitCompound(link: LinkText): string
    decreases link, 0
  {
    TagOrAny(link.tag) + (EmitSome(link.simples, true) + EmitSome(link.simples, false))
  }

  function EmitFrom(links: seq<LinkText>, relation: string): string
    requires links != []
    decreases links, 0
  {
    relation + EmitCompound(links[0])
    + if |links| == 1 then "" else EmitFrom(links[1..], if links[1].gap.Arrow? then "/" else "//")
  }

  function FirstRelation(gap: Gap, relative: bool): string {
    if gap.Arrow? then "./" else if relative then ".//" else "//"
  }

  function EmitGroup(group: GroupText, relative: bool): string
    decreases group, 0
  {
    if group.links == [] then "" else EmitFrom(group.links, FirstRelation(group.links[0].gap, relative))
  }

  function EmitGroups(groups: seq<GroupText>, relative: bool): string
    decreases groups, 0
  {
    if groups == [] then ""
    else if |groups| == 1 then EmitGroup(groups[0], relative)
    else EmitGroup(groups[0], relative) + T.UNION + EmitGroups(groups[1..], relative)
  }

  // ---------------------------------------------------------------- the compiler

  function Prepend<S>(done: seq<S>, more: Option<seq<S>>): (all: Option<seq<S>>)
    ensures done == [] ==> all == more
  {
    match more
    case None => None
    case Some(rest) =>
      assert [] + rest == rest;
      Some(done + rest)
  }

  lemma PrependTwice<S>(done: seq<S>, next: S, more: Option<seq<S>>)
    ensures Prepend(done, Prepend([next], more)) == Prepend(done + [next], more)
  {
    if more.Some? { assert done + ([next] + more.value) == (done + [next]) + more.value; }
  }

  lemma Pop(text: string, start: nat, i: nat)
    requires start <= i < |text|
    ensures text[i..][0] == text[i] && text[i..][1..] == text[i + 1..]
    ensures text[start..i] + [text[i]] == text[start..i + 1]
    ensures text[i + 1..i + 1] == ""
  {
  }

  method SplitGroups(selector: string) returns (groups: Result<seq<string>, Reason>)
    ensures match Split(START, "", selector)
            case None => groups.Err?
            case Some(pieces) => groups == Ok(pieces)
  {
    var found: seq<string>, start, depth, quote: Option<char> := [], 0, 0, None;
    assert selector[0..] == selector && selector[0..0] == "";
    for i := 0 to |selector|
      invariant start <= i && (quote.Some? ==> IsQuote(quote.value))
      invariant Split(START, "", selector)
        == Prepend(found, Split(Scan(depth, quote), selector[start..i], selector[i..]))
    {
      var c := selector[i];
      Pop(selector, start, i);
      if c == '\\' { return Err(Escapes); }
      if quote.Some? {
        if c == quote.value { quote := None; }
        continue;
      }
      if IsQuote(c) {
        quote := Some(c);
        continue;
      }
      if c == '(' || c == '[' { depth := depth + 1; }
      if c == ')' || c == ']' { depth := depth - 1; }
      if depth < 0 { return Err(Unbalanced); }
      if c == ',' && depth == 0 {
        PrependTwice(found, selector[start..i], Split(START, "", selector[i + 1..]));
        found, start := found + [selector[start..i]], i + 1;
      }
    }
    if depth != 0 || quote.Some? { return Err(Unbalanced); }
    assert selector[|selector|..] == "" && selector[start..|selector|] == selector[start..];
    return Ok(found + [selector[start..]]);
  }

  /** The scan for the end of a compound in cssXPath. */
  method ScanCompound(rest: string) returns (end: nat)
    ensures end == CompoundEnd(START, rest)
  {
    var nesting, quote: Option<char> := 0, None;
    end := 0;
    assert rest[0..] == rest;
    while end < |rest|
      invariant end <= |rest|
      invariant CompoundEnd(START, rest) == end + CompoundEnd(Scan(nesting, quote), rest[end..])
    {
      var c := rest[end];
      Pop(rest, end, end);
      if quote.Some? {
        if c == quote.value { quote := None; }
      } else if IsQuote(c) {
        quote := Some(c);
      } else {
        if c == '(' || c == '[' { nesting := nesting + 1; }
        if c == ')' || c == ']' { nesting := nesting - 1; }
        if nesting == 0 && IsBreak(c) { return; }
      }
      end := end + 1;
    }
  }

  function Later(i: nat, end: Option<nat>): Option<nat> {
    match end
    case None => None
    case Some(n) => Some(i + n)
  }

  /** The scan for the end of a :has( in compoundXPath. */
  method ScanHas(text: string) returns (end: Option<nat>)
    ensures end == HasEnd(Scan(1, None), text)
  {
    var level, quote: Option<char> := 1, None;
    assert text[0..] == text;
    for i := 0 to |text|
      invariant quote.Some? ==> IsQuote(quote.value)
      invariant HasEnd(Scan(1, None), text) == Later(i, HasEnd(Scan(level, quote), text[i..]))
    {
      var c := text[i];
      Pop(text, i, i);
      if quote.Some? {
        if c == quote.value { quote := None; }
        continue;
      }
      if IsQuote(c) {
        quote := Some(c);
        continue;
      }
      if c == '(' { level := level + 1; }
      if c == ')' {
        level := level - 1;
        if level == 0 { return Some(i); }
      }
    }
    return None;
  }

  // One predicate of a compound is written per simple selector, in two lists.

  function Bracketed(parts: seq<string>): string {
    if parts == [] then "" else Bracketed(parts[..|parts| - 1]) + ("[" + parts[|parts| - 1] + "]")
  }

  lemma {:induction false} EmitSomeSnoc(simples: seq<SimpleText>, s: SimpleText, counts: bool)
    ensures EmitSome(simples + [s], counts) == EmitSome(simples, counts) + EmitIf(s, counts)
    decreases |simples|
  {
    if simples == [] {
      assert simples + [s] == [s] && [s][1..] == [];
      NoText(EmitIf(s, counts));
    } else {
      EmitSomeSnoc(simples[1..], s, counts);
      assert (simples + [s])[0] == simples[0] && (simples + [s])[1..] == simples[1..] + [s];
      Assoc(EmitIf(simples[0], counts), EmitSome(simples[1..], counts), EmitIf(s, counts));
    }
  }

  function EmitIf(s: SimpleText, counts: bool): string {
    if s.NthText? == counts then "[" + EmitSimple(s) + "]" else ""
  }

  /** What one turn of compoundXPath's loop adds: a count or a predicate, and the rest. */
  datatype Part = Part(count: bool, text: string, rest: string)

  /** The body of the loop of compoundXPath. */
  method SimpleXPath(rest: string, tag: string, depth: nat) returns (part: Result<Part, Reason>)
    requires rest != ""
    ensures match ParseSimple(rest, tag != "*", depth)
            case None => part.Err?
            case Some(p) => part == Ok(Part(p.value.NthText?, EmitSimple(p.value), p.rest))
    decreases |rest|, 3
  {
    if rest[0] == '.' || rest[0] == '#' {
      var m := NameLength(rest[1..]);
      if m == 0 { return Err(Unknown); }
      var name := rest[1..][..m];
      return Ok(Part(false,
        if rest[0] == '#' then "@id=" + T.Literal(name)
        else T.CLASS_TEST + T.Literal(" " + name + " ") + ")", rest[1..][m..]));
    } else if rest[0] == '[' {
      var m := ParseAttribute(rest[1..]);
      if m.None? { return Err(Unknown); }
      assert !m.value.value.NthText?;
      return Ok(Part(false, EmitSimple(m.value.value), m.value.rest));
    } else if NTH <= rest {
      var right := rest[|NTH|..];
      var m := CountLength(right);
      if m == 0 || m == |right| || right[m] != ')' { return Err(Unknown); }
      if tag == "*" { return Err(WildcardCount); }
      return Ok(Part(true, right[..m], right[m..][1..]));
    } else if HAS <= rest {
      var right := rest[|HAS|..];
      var end := ScanHas(right);
      if end.None? { return Err(UnbalancedHas); }
      var inner := CssXPath(right[..end.value], true, depth + 1);
      if inner.Err? { return Err(inner.error); }
      return Ok(Part(false, inner.value, right[end.value..][1..]));
    }
    return Err(Unknown);
  }

  /** compoundXPath. */
  method CompoundXPath(source: string, depth: nat) returns (xpath: Result<string, Reason>)
    ensures match ParseCompound(Space(""), source, depth)
            case None => xpath.Err?
            case Some(link) => xpath == Ok(EmitCompound(link))
    decreases |source|, 4
  {
    var n := TagLength(source);
    var tag := TagOrAny(source[..n]);
    var rest, predicates: seq<string>, position: seq<string> := source[n..], [], [];
    ghost var done: seq<SimpleText> := [];
    while rest != ""
      invariant |rest| <= |source|
      invariant ParseSimples(source[n..], tag != "*", depth) == Prepend(done, ParseSimples(rest, tag != "*", depth))
      invariant Bracketed(position) == EmitSome(done, true) && Bracketed(predicates) == EmitSome(done, false)
      decreases |rest|
    {
      var part := SimpleXPath(rest, tag, depth);
      if part.Err? { return Err(part.error); }
      ghost var s := ParseSimple(rest, tag != "*", depth).value.value;
      EmitSomeSnoc(done, s, true);
      EmitSomeSnoc(done, s, false);
      PrependTwice(done, s, ParseSimples(part.value.rest, tag != "*", depth));
      done := done + [s];
      if part.value.count { position := position + [part.value.text]; }
      else { predicates := predicates + [part.value.text]; }
      rest := part.value.rest;
    }
    assert done + [] == done;
    return Ok(tag + (Bracketed(position) + Bracketed(predicates)));
  }

  /** What is written once `path` has been and the compounds `links` are still to come. */
  function Continued(path: string, relation: string, links: Option<seq<LinkText>>): Option<string> {
    match links
    case None => None
    case Some(l) => if l == [] then None else Some(path + EmitFrom(l, relation))
  }

  lemma LinksGap(gap: Gap, text: string, depth: nat)
    requires ParseLinks(gap, text, depth).Some?
    ensures var links := ParseLinks(gap, text, depth).value; links != [] && links[0].gap == gap
  {
    assert ParseCompound(gap, text[..CompoundEnd(START, text)], depth).value.gap == gap;
  }

  /** One turn of the loop over compounds: `next` and `after` are the gap and text behind
      the compound that ends at `end`. */
  lemma Turn(gap: Gap, text: string, depth: nat, end: nat, compound: Option<LinkText>, path: string, relation: string,
             next: Gap, after: string)
    requires 0 < end == CompoundEnd(START, text) && compound == ParseCompound(Space(""), text[..end], depth)
    requires var rest, space := Trim(text[end..]), text[end..][..Run(text[end..], IsJsSpace)];
      if rest != "" && rest[0] == '>' then
        next == Arrow(space, rest[1..][..Run(rest[1..], IsJsSpace)]) && after == Trim(rest[1..])
      else next == Space(space) && after == rest
    ensures var target := Continued(path, relation, ParseLinks(gap, text, depth));
      if compound.None? then target.None?
      else
        var written := path + (relation + EmitCompound(compound.value));
        if Trim(text[end..]) == "" then target == Some(written)
        else target == Continued(written, if next.Arrow? then "/" else "//", ParseLinks(next, after, depth))
  {
    assert ParseCompound(gap, text[..end], depth).Some? == compound.Some?;
    if compound.Some? {
      var link := ParseCompound(gap, text[..end], depth).value;
      assert link == compound.value.(gap := gap);
      NoText(relation + EmitCompound(link));
      var more := ParseLinks(next, after, depth);
      if more.Some? {
        LinksGap(next, after, depth);
        TurnWritten(link, more.value, path, relation);
      }
    }
  }

  lemma TurnWritten(link: LinkText, links: seq<LinkText>, path: string, relation: string)
    requires links != []
    ensures path + EmitFrom([link] + links, relation)
            == (path + (relation + EmitCompound(link))) + EmitFrom(links, if links[0].gap.Arrow? then "/" else "//")
  {
    assert ([link] + links)[1..] == links;
    Assoc(path, relation + EmitCompound(link), EmitFrom(links, if links[0].gap.Arrow? then "/" else "//"));
  }

  /** The loop over compounds: what is written, the next relation and the text still to read. */
  datatype Progress = Progress(path: string, relation: string, rest: string)

  /** The body of that loop. */
  method NextXPath(ghost gap: Gap, text: string, depth: nat, path: string, relation: string)
    returns (turn: Result<Progress, Reason>, ghost next: Gap)
    requires text != ""
    ensures turn.Err? ==> Continued(path, relation, ParseLinks(gap, text, depth)).None?
    ensures turn.Ok? ==>
      var p := turn.value;
      && |p.rest| < |text| && p.path != ""
      && Continued(path, relation, ParseLinks(gap, text, depth))
         == if p.rest == "" then Some(p.path) else Continued(p.path, p.relation, ParseLinks(next, p.rest, depth))
    decreases |text|, 5
  {
    var end := ScanCompound(text);
    if end == 0 { return Err(UnknownCombinator), gap; }
    var compound := CompoundXPath(text[..end], depth);
    var rest := Trim(text[end..]);
    var after, relation' := rest, "//";
    ghost var space := text[end..][..Run(text[end..], IsJsSpace)];
    next := Space(space);
    if rest != "" && rest[0] == '>' {
      next := Arrow(space, rest[1..][..Run(rest[1..], IsJsSpace)]);
      relation', after := "/", Trim(rest[1..]);
    }
    Turn(gap, text, depth, end, ParseCompound(Space(""), text[..end], depth), path, relation, next, after);
    if compound.Err? { return Err(compound.error), next; }
    if rest != "" && after == "" { return Err(IncompleteChild), next; }
    return Ok(Progress(path + (relation + compound.value), relation', after)), next;
  }

  /** What comes before the first compound: the white space and perhaps a ">". */
  lemma GroupStart(group: string, relative: bool, depth: nat, gap: Gap, relation: string, rest: string)
    requires var text, space := Trim(group), group[..Run(group, IsJsSpace)];
      if text != "" && text[0] == '>' then
        && relative && relation == "./" && rest == Trim(text[1..])
        && gap == Arrow(space, text[1..][..Run(text[1..], IsJsSpace)])
      else relation == (if relative then ".//" else "//") && rest == text && gap == Space(space)
    ensures match ParseGroup(group, relative, depth)
            case None => Continued("", relation, ParseLinks(gap, rest, depth)).None?
            case Some(g) => Continued("", relation, ParseLinks(gap, rest, depth)) == Some(EmitGroup(g, relative))
  {
    var links := ParseLinks(gap, rest, depth);
    if links.Some? {
      LinksGap(gap, rest, depth);
      NoText(EmitFrom(links.value, relation));
    }
  }

  /** One comma-separated selector of cssXPath. */
  method GroupXPath(group: string, relative: bool, depth: nat) returns (xpath: Result<string, Reason>)
    ensures match ParseGroup(group, relative, depth)
            case None => xpath.Err?
            case Some(g) => xpath == Ok(EmitGroup(g, relative))
    decreases |group|, 6
  {
    var rest, path, relation := Trim(group), "", if relative then ".//" else "//";
    ghost var gap := Space(group[..Run(group, IsJsSpace)]);
    if rest != "" && rest[0] == '>' {
      if !relative { return Err(NoParent); }
      relation := "./";
      gap := Arrow(gap.space, rest[1..][..Run(rest[1..], IsJsSpace)]);
      rest := Trim(rest[1..]);
    }
    GroupStart(group, relative, depth, gap, relation, rest);
    ghost var target := Continued("", relation, ParseLinks(gap, rest, depth));
    while rest != ""
      invariant |rest| <= |group|
      invariant rest != "" ==> target == Continued(path, relation, ParseLinks(gap, rest, depth))
      invariant rest == "" ==> target == if path == "" then None else Some(path)
      decreases |rest|
    {
      var turn, next := NextXPath(gap, rest, depth, path, relation);
      if turn.Err? { return Err(turn.error); }
      path, relation, rest, gap := turn.value.path, turn.value.relation, turn.value.rest, next;
    }
    if path == "" { return Err(NoSelector); }
    return Ok(path);
  }

  lemma GroupsOfPieces(selector: string, relative: bool, depth: nat, pieces: seq<string>)
    requires depth <= MAX_DEPTH && Split(START, "", selector) == Some(pieces)
    ensures forall p | p in pieces :: |p| <= |selector|
    ensures ParseGroups(selector, relative, depth) == ParseEach(pieces, relative, depth, |selector|)
  {
    SplitBound(START, "", selector);
  }

  /** Every selector of the list. */
  method EachXPath(pieces: seq<string>, relative: bool, depth: nat, ghost bound: nat)
    returns (xpaths: Result<seq<string>, Reason>)
    requires forall p | p in pieces :: |p| <= bound
    ensures match ParseEach(pieces, relative, depth, bound)
            case None => xpaths.Err?
            case Some(groups) => xpaths.Ok? && Emitted(xpaths.value, groups, relative)
    decreases bound, 7
  {
    var outs: seq<string> := [];
    ghost var groups: seq<GroupText> := [];
    ghost var all := ParseEach(pieces, relative, depth, bound);
    assert pieces[0..] == pieces;
    for i := 0 to |pieces|
      invariant |outs| == i && Emitted(outs, groups, relative)
      invariant all == Prepend(groups, ParseEach(pieces[i..], relative, depth, bound))
    {
      EachStep(pieces, i, relative, depth, bound);
      ghost var group := ParseGroup(pieces[i], relative, depth);
      var one := GroupXPath(pieces[i], relative, depth);
      if one.Err? { return Err(one.error); }
      PrependTwice(groups, group.value, ParseEach(pieces[i + 1..], relative, depth, bound));
      EmittedSnoc(outs, groups, relative, one.value, group.value);
      outs, groups := outs + [one.value], groups + [group.value];
    }
    assert groups + [] == groups;
    return Ok(outs);
  }

  lemma EachStep(pieces: seq<string>, i: nat, relative: bool, depth: nat, bound: nat)
    requires i < |pieces| && forall p | p in pieces :: |p| <= bound
    ensures |pieces[i]| <= bound
    ensures var group := ParseGroup(pieces[i], relative, depth);
      ParseEach(pieces[i..], relative, depth, bound)
      == if group.None? then None else Prepend([group.value], ParseEach(pieces[i + 1..], relative, depth, bound))
  {
    assert pieces[i] in pieces && pieces[i..][0] == pieces[i] && pieces[i..][1..] == pieces[i + 1..];
  }

  lemma EmittedSnoc(outs: seq<string>, groups: seq<GroupText>, relative: bool, out: string, group: GroupText)
    requires Emitted(outs, groups, relative) && out == EmitGroup(group, relative)
    ensures Emitted(outs + [out], groups + [group], relative)
  {
  }

  ghost predicate Emitted(outs: seq<string>, groups: seq<GroupText>, relative: bool) {
    |outs| == |groups| && forall k | 0 <= k < |outs| :: outs[k] == EmitGroup(groups[k], relative)
  }

  /** cssXPath: every selector of the list, joined as a union. */
  method CssXPath(selector: string, relative: bool, depth: nat) returns (xpath: Result<string, Reason>)
    ensures selector == "" || selector == "." ==> xpath == Ok(selector)
    ensures selector != "" && selector != "." ==>
      match ParseGroups(selector, relative, depth)
      case None => xpath.Err?
      case Some(groups) => xpath == Ok(EmitGroups(groups, relative))
    decreases |selector|, 8
  {
    if selector == "" || selector == "." { return Ok(selector); }
    if depth > MAX_DEPTH { return Err(TooDeep); }
    var pieces := SplitGroups(selector);
    if pieces.Err? { return Err(pieces.error); }
    GroupsOfPieces(selector, relative, depth, pieces.value);
    var outs := EachXPath(pieces.value, relative, depth, |selector|);
    if outs.Err? { return Err(outs.error); }
    UnionEmits(outs.value, ParseGroups(selector, relative, depth).value, relative);
    return Ok(Union(outs.value));
  }

  function Union(paths: seq<string>): string {
    if paths == [] then "" else if |paths| == 1 then paths[0] else paths[0] + T.UNION + Union(paths[1..])
  }

  lemma {:induction false} UnionEmits(outs: seq<string>, groups: seq<GroupText>, relative: bool)
    requires Emitted(outs, groups, relative)
    ensures Union(outs) == EmitGroups(groups, relative)
    decreases |outs|
  {
    if |outs| > 1 { UnionEmits(outs[1..], groups[1..], relative); }
  }
}
