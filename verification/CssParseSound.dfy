/** Whatever the reader accepts is a text of the grammar, and it recovers its syntax. */
module CssParseSound {
  import opened Wrappers
  import opened CssText
  import opened CssParse

  // ---------------------------------------------------------------- pieces of text

  lemma Cut(text: string, n: nat)
    requires n <= |text|
    ensures text == text[..n] + text[n..]
  {
  }

  lemma Head(text: string)
    requires text != ""
    ensures text == [text[0]] + text[1..]
  {
  }

  predicate RightTrimmed(text: string) { text != "" ==> !IsJsSpace(text[|text| - 1]) }

  lemma AroundLast(text: string, k: nat)
    requires k < |text|
    ensures text[..|text| - 1][..k] == text[..k]
    ensures text[..|text| - 1][k..] + [text[|text| - 1]] == text[k..]
  {
  }

  lemma SpaceAtEnd(text: string, c: char)
    requires AllSpace(text) && IsJsSpace(c)
    ensures AllSpace(text + [c])
  {
  }

  lemma {:induction false} TrailFacts(text: string)
    ensures AllSpace(text[|text| - TrailLength(text)..])
    ensures RightTrimmed(text[..|text| - TrailLength(text)])
    decreases |text|
  {
    if text != "" && IsJsSpace(text[|text| - 1]) {
      var front := text[..|text| - 1];
      var k := |front| - TrailLength(front);
      TrailFacts(front);
      AroundLast(text, k);
      SpaceAtEnd(front[k..], text[|text| - 1]);
      assert k == |text| - TrailLength(text);
    } else {
      assert text[..|text|] == text;
    }
  }

  /** Trimming cuts white space off both ends and stops at something else. */
  lemma TrimFacts(text: string)
    ensures var lead := Run(text, IsJsSpace);
      && |Trim(text)| <= |text[lead..]|
      && text == text[..lead] + (Trim(text) + text[lead..][|Trim(text)|..])
      && AllSpace(text[..lead]) && AllSpace(text[lead..][|Trim(text)|..])
      && RightTrimmed(Trim(text))
  {
    var lead := Run(text, IsJsSpace);
    TrailFacts(text[lead..]);
    Cut(text, lead);
    Cut(text[lead..], |Trim(text)|);
  }

  /** Leading white space stops before the end of a text that does not end in any. */
  lemma LeadStops(text: string)
    requires RightTrimmed(text) && text != ""
    ensures Run(text, IsJsSpace) < |text|
  {
    assert text[|text| - 1] in text && text[..|text|] == text;
  }

  /** What is already trimmed on the right loses only its leading white space. */
  lemma TrimRightTrimmed(text: string)
    requires RightTrimmed(text)
    ensures Trim(text) == text[Run(text, IsJsSpace)..]
    ensures text == text[..Run(text, IsJsSpace)] + Trim(text)
    ensures AllSpace(text[..Run(text, IsJsSpace)]) && RightTrimmed(Trim(text))
    ensures text != "" ==> Trim(text) != ""
  {
    var n := Run(text, IsJsSpace);
    Cut(text, n);
    SuffixTrimmed(text, n);
    NoTrail(text[n..]);
    if text != "" { LeadStops(text); }
  }

  lemma NoTrail(text: string)
    requires RightTrimmed(text)
    ensures text[..|text| - TrailLength(text)] == text
  {
    assert text[..|text|] == text;
  }

  lemma SuffixTrimmed(text: string, n: nat)
    requires n <= |text| && RightTrimmed(text)
    ensures RightTrimmed(text[n..])
  {
  }

  // ---------------------------------------------------------------- writing in front of more

  lemma {:induction false} ValueTail(quoting: Quoting, value: string, a: string, b: string)
    ensures WriteValue(quoting, value, a) + b == WriteValue(quoting, value, a + b)
  {
    Assoc(value, a, b);
    match quoting
    case Double => Assoc("\"", value + ("\"" + a), b); Assoc(value, "\"" + a, b); Assoc("\"", a, b);
    case Single => Assoc("'", value + ("'" + a), b); Assoc(value, "'" + a, b); Assoc("'", a, b);
    case Bare =>
  }

  lemma {:induction false} SimpleTail(s: SimpleText, a: string, b: string)
    ensures WriteSimple(s, a) + b == WriteSimple(s, a + b)
    decreases s, 0
  {
    match s
    case ClassText(name) => Assoc(".", name + a, b); Assoc(name, a, b);
    case IdText(name) => Assoc("#", name + a, b); Assoc(name, a, b);
    case AttributeText(name) => Assoc("[", name + ("]" + a), b); Assoc(name, "]" + a, b); Assoc("]", a, b);
    case AttributeIsText(name, before, after, quoting, value) =>
      var v := WriteValue(quoting, value, "]" + a);
      Assoc("]", a, b);
      ValueTail(quoting, value, "]" + a, b);
      Assoc(after, v, b);
      Assoc("=", after + v, b);
      Assoc(before, "=" + (after + v), b);
      Assoc(name, before + ("=" + (after + v)), b);
      Assoc("[", name + (before + ("=" + (after + v))), b);
    case NthText(digits) =>
      Assoc(NTH, digits + (")" + a), b); Assoc(digits, ")" + a, b); Assoc(")", a, b);
    case HasText(groups) =>
      GroupsTail(groups, ")" + a, b);
      Assoc(HAS, WriteGroups(groups, ")" + a), b); Assoc(")", a, b);
    case HasRaw(raw) => Assoc(HAS, raw + (")" + a), b); Assoc(raw, ")" + a, b); Assoc(")", a, b);
  }

  lemma {:induction false} SimplesTail(simples: seq<SimpleText>, a: string, b: string)
    ensures WriteSimples(simples, a) + b == WriteSimples(simples, a + b)
    decreases simples, 0
  {
    if simples != [] {
      SimplesTail(simples[1..], a, b);
      SimpleTail(simples[0], WriteSimples(simples[1..], a), b);
    }
  }

  lemma GapTail(gap: Gap, a: string, b: string)
    ensures WriteGap(gap, a) + b == WriteGap(gap, a + b)
  {
    match gap
    case Space(space) => Assoc(space, a, b);
    case Arrow(before, after) => Assoc(before, ">" + (after + a), b); Assoc(">", after + a, b); Assoc(after, a, b);
  }

  lemma {:induction false} LinkTail(link: LinkText, a: string, b: string)
    ensures WriteLink(link, a) + b == WriteLink(link, a + b)
    decreases link, 0
  {
    SimplesTail(link.simples, a, b);
    Assoc(link.tag, WriteSimples(link.simples, a), b);
    GapTail(link.gap, link.tag + WriteSimples(link.simples, a), b);
  }

  lemma {:induction false} LinksTail(links: seq<LinkText>, a: string, b: string)
    ensures WriteLinks(links, a) + b == WriteLinks(links, a + b)
    decreases links, 0
  {
    if links != [] {
      LinksTail(links[1..], a, b);
      LinkTail(links[0], WriteLinks(links[1..], a), b);
    }
  }

  lemma {:induction false} GroupTail(group: GroupText, a: string, b: string)
    ensures WriteGroup(group, a) + b == WriteGroup(group, a + b)
    decreases group, 0
  {
    LinksTail(group.links, group.trail + a, b);
    Assoc(group.trail, a, b);
  }

  lemma {:induction false} GroupsTail(groups: seq<GroupText>, a: string, b: string)
    ensures WriteGroups(groups, a) + b == WriteGroups(groups, a + b)
    decreases groups, 0
  {
    if |groups| == 1 {
      GroupTail(groups[0], a, b);
    } else if groups != [] {
      GroupsTail(groups[1..], a, b);
      GroupTail(groups[0], "," + WriteGroups(groups[1..], a), b);
      Assoc(",", WriteGroups(groups[1..], a), b);
    }
  }

  // ---------------------------------------------------------------- soundness

  lemma NameFacts(text: string)
    ensures NameLength(text) > 0 ==> IsName(text[..NameLength(text)])
  {
    if NameLength(text) > 0 { assert text[..NameLength(text)][0] == text[0]; }
  }

  lemma ValueSound(text: string)
    requires ParseValue(text).Some?
    ensures var Parsed((quoting, value), rest) := ParseValue(text).value;
      text == WriteValue(quoting, value, rest) && ValueFits(quoting, value)
  {
    Head(text);
    if IsQuote(text[0]) {
      var body := text[1..];
      var n := Run(body, c => c != text[0]);
      Cut(body, n);
      Head(body[n..]);

    } else {
      var n := Run(text, IsNameChar);
      Cut(text, n);

    }
  }

  /** The part of an attribute pattern from its "=" on. */
  lemma AttributeValueSound(name: string, after: string)
    requires ParseAttributeValue(name, after).Some?
    ensures var Parsed(s, rest) := ParseAttributeValue(name, after).value;
      && s.AttributeIsText? && s.name == name
      && after == s.before + ("=" + (s.after + WriteValue(s.quoting, s.value, "]" + rest)))
      && AllSpace(s.before) && AllSpace(s.after) && ValueFits(s.quoting, s.value)
  {
    var b := Run(after, IsJsSpace);
    Cut(after, b);
    Head(after[b..]);
    AttributeRightSound(after[b..][1..]);
  }

  lemma AttributeRightSound(right: string)
    requires var v := ParseValue(right[Run(right, IsJsSpace)..]);
      v.Some? && v.value.rest != "" && v.value.rest[0] == ']'
    ensures var a := Run(right, IsJsSpace);
      var Parsed((quoting, value), rest) := ParseValue(right[a..]).value;
      && right == right[..a] + WriteValue(quoting, value, "]" + rest[1..])
      && AllSpace(right[..a]) && ValueFits(quoting, value)
  {
    var a := Run(right, IsJsSpace);
    Cut(right, a);
    ValueSound(right[a..]);
    var rest := ParseValue(right[a..]).value.rest;
    Head(rest);
  }

  lemma AttributeSound(text: string, named: bool, depth: nat)
    requires ParseAttribute(text).Some?
    ensures var Parsed(s, rest) := ParseAttribute(text).value;
      "[" + text == WriteSimple(s, rest) && GoodSimple(s, named, depth)
  {
    var n := NameLength(text);
    var name, after := text[..n], text[n..];
    NameFacts(text);
    Cut(text, n);

    Head(after);

    if after[0] != ']' {
      AttributeValueSound(name, after);
      var Parsed(s, rest) := ParseAttributeValue(name, after).value;
      assert WriteSimple(s, rest)
          == "[" + (s.name + (s.before + ("=" + (s.after + WriteValue(s.quoting, s.value, "]" + rest)))));
    }
  }

  /** A pseudo-class call: its opening, n characters, and the closing bracket. */
  lemma CallSound(text: string, open: string, n: nat)
    requires open <= text
    requires n < |text[|open|..]| && text[|open|..][n] == ')'
    ensures var right := text[|open|..];
      text == open + (right[..n] + (")" + right[n..][1..]))
  {
    var right := text[|open|..];
    Cut(text, |open|); Cut(right, n); Head(right[n..]);

  }

  lemma CountFacts(text: string)
    ensures CountLength(text) > 0 ==> IsCount(text[..CountLength(text)])
  {
    if CountLength(text) > 0 { assert text[..CountLength(text)][0] == text[0]; }
  }

  lemma {:induction false} SimpleSound(text: string, named: bool, depth: nat)
    requires text != "" && ParseSimple(text, named, depth).Some?
    ensures var Parsed(s, rest) := ParseSimple(text, named, depth).value;
      text == WriteSimple(s, rest) && GoodSimple(s, named, depth)
    decreases |text|, 0
  {
    Head(text);

    if text[0] == '.' || text[0] == '#' {
      var right := text[1..];
      NameFacts(right);
      Cut(right, NameLength(right));

    } else if text[0] == '[' {
      AttributeSound(text[1..], named, depth);
    } else if NTH <= text {
      CountFacts(text[|NTH|..]);
      CallSound(text, NTH, CountLength(text[|NTH|..]));
    } else {
      var right := text[|HAS|..];
      var n := HasEnd(Scan(1, None), right).value;
      CallSound(text, HAS, n);
      if right[..n] != "" && right[..n] != "." {
        GroupsSound(right[..n], true, depth + 1);
        GroupsTail(ParseGroups(right[..n], true, depth + 1).value, "", ")" + right[n..][1..]);
        assert "" + (")" + right[n..][1..]) == ")" + right[n..][1..];
      }
    }
  }

  lemma {:induction false} SimplesSound(text: string, named: bool, depth: nat)
    requires ParseSimples(text, named, depth).Some?
    ensures var simples := ParseSimples(text, named, depth).value;
      && WriteSimples(simples, "") == text && (text != "" ==> simples != [])
      && forall s | s in simples :: GoodSimple(s, named, depth)
    decreases |text|, 1
  {
    if text != "" {
      SimpleSound(text, named, depth);
      SimplesSound(ParseSimple(text, named, depth).value.rest, named, depth);
    }
  }

  lemma {:induction false} CompoundSound(gap: Gap, text: string, depth: nat)
    requires text != "" && ParseCompound(gap, text, depth).Some? && GapGood(gap)
    ensures var link := ParseCompound(gap, text, depth).value;
      WriteLink(link, "") == WriteGap(gap, text) && link.gap == gap && GoodLink(link, depth)
    decreases |text|, 2
  {
    var n := TagLength(text);
    NameFacts(text);
    Cut(text, n);

    assert IsName(text[..n]) <==> text[..n] != "" && text[..n] != "*";
    SimplesSound(text[n..], IsName(text[..n]), depth);
  }

  /** The compounds read from a text that a gap precedes. */
  ghost predicate LinksRead(gap: Gap, text: string, depth: nat, links: seq<LinkText>) {
    && WriteLinks(links, "") == WriteGap(gap, text)
    && links != [] && links[0].gap == gap
    && (forall link | link in links :: GoodLink(link, depth))
    && forall i | 1 <= i < |links| :: links[i].gap != Space("")
  }

  lemma LinksCons(gap: Gap, front: string, depth: nat, link: LinkText, next: Gap, rest: string, links: seq<LinkText>)
    requires GoodLink(link, depth) && link.gap == gap && next != Space("")
    requires WriteLink(link, "") == WriteGap(gap, front)
    requires LinksRead(next, rest, depth, links)
    ensures LinksRead(gap, front + WriteGap(next, rest), depth, [link] + links)
  {
    var all := [link] + links;
    assert all[0] == link && all[1..] == links;
    LinkTail(link, "", WriteGap(next, rest));
    GapTail(gap, front, WriteGap(next, rest));
    assert "" + WriteGap(next, rest) == WriteGap(next, rest);
    assert forall i | 1 <= i < |all| :: all[i] == links[i - 1];
  }

  /** A compound that is not the last ends at a break; when that is neither white space
      nor ">", what follows is not a compound. */
  lemma {:induction false} StopsAtBreak(st: Scan, text: string)
    ensures var end := CompoundEnd(st, text); end < |text| ==> IsBreak(text[end])
    decreases |text|
  {
    if text != "" && !(st == START && IsBreak(text[0])) { StopsAtBreak(Next(st, text[0], true), text[1..]); }
  }

  /** What follows a compound: trimmed text, after the white space before it. */
  lemma AfterCompound(text: string, end: nat)
    requires end == CompoundEnd(START, text) && RightTrimmed(text)
    ensures var after := text[end..];
      var space, rest := after[..Run(after, IsJsSpace)], Trim(after);
      && text == text[..end] + (space + rest) && AllSpace(space) && RightTrimmed(rest)
      && (rest == "" ==> text == text[..end])
      && (rest != "" && space == "" ==> IsBreak(rest[0]) && !IsJsSpace(rest[0]))
  {
    Cut(text, end);
    SuffixTrimmed(text, end);
    TrimRightTrimmed(text[end..]);

    StopsAtBreak(START, text);
  }

  /** A ">" and the white space after it. */
  lemma AfterArrow(rest: string)
    requires rest != "" && rest[0] == '>' && RightTrimmed(rest)
    ensures var right := rest[1..];
      var space := right[..Run(right, IsJsSpace)];
      && rest == ">" + (space + Trim(right)) && AllSpace(space) && RightTrimmed(Trim(right))
  {
    Head(rest); SuffixTrimmed(rest, 1);
    TrimRightTrimmed(rest[1..]);

  }

  lemma {:induction false} LinksSound(gap: Gap, text: string, depth: nat)
    requires ParseLinks(gap, text, depth).Some? && RightTrimmed(text) && GapGood(gap)
    ensures LinksRead(gap, text, depth, ParseLinks(gap, text, depth).value)
    decreases |text|, 3
  {
    var end := CompoundEnd(START, text);
    AfterCompound(text, end);
    CompoundSound(gap, text[..end], depth);
    var link := ParseCompound(gap, text[..end], depth).value;
    var space, rest := text[end..][..Run(text[end..], IsJsSpace)], Trim(text[end..]);
    if rest == "" {
      assert WriteLinks([link], "") == WriteLink(link, "");
    } else if rest[0] == '>' {
      AfterArrow(rest);
      NextSound(gap, text[..end], depth, link, Arrow(space, rest[1..][..Run(rest[1..], IsJsSpace)]), Trim(rest[1..]));
    } else {
      assert space == "" ==> CompoundEnd(START, rest) == 0;
      NextSound(gap, text[..end], depth, link, Space(space), rest);
    }
  }

  lemma {:induction false} NextSound(gap: Gap, front: string, depth: nat, link: LinkText, next: Gap, rest: string)
    requires GoodLink(link, depth) && link.gap == gap && WriteLink(link, "") == WriteGap(gap, front)
    requires next != Space("") && GapGood(next)
    requires ParseLinks(next, rest, depth).Some? && RightTrimmed(rest)
    ensures LinksRead(gap, front + WriteGap(next, rest), depth, [link] + ParseLinks(next, rest, depth).value)
    decreases |rest|, 4
  {
    LinksSound(next, rest, depth);
    LinksCons(gap, front, depth, link, next, rest, ParseLinks(next, rest, depth).value);
  }

  /** The links of a group, with the white space around them, spell the group. */
  lemma GroupWritten(gap: Gap, core: string, lead: string, rest: string, trail: string, depth: nat,
                     links: seq<LinkText>)
    requires LinksRead(gap, core, depth, links) && WriteGap(gap, core) == lead + rest
    ensures WriteGroup(GroupText(links, trail), "") == lead + (rest + trail)
  {
    LinksTail(links, "", trail);
    assert "" + trail == trail == trail + "";
    Assoc(lead, rest, trail);
  }

  lemma {:induction false} GroupSound(text: string, relative: bool, depth: nat)
    requires ParseGroup(text, relative, depth).Some?
    ensures var group := ParseGroup(text, relative, depth).value;
      WriteGroup(group, "") == text && GoodGroup(group, relative, depth)
    decreases |text|, 5
  {
    TrimFacts(text);
    var lead, rest := text[..Run(text, IsJsSpace)], Trim(text);
    var trail := TrimLeft(text)[|rest|..];

    var gap, core := Space(lead), rest;
    if rest != "" && rest[0] == '>' {
      AfterArrow(rest);
      gap, core := Arrow(lead, rest[1..][..Run(rest[1..], IsJsSpace)]), Trim(rest[1..]);
    }
    LinksSound(gap, core, depth);
    GroupWritten(gap, core, lead, rest, trail, depth, ParseLinks(gap, core, depth).value);
  }

  function Commas(pieces: seq<string>): string {
    if pieces == [] then "" else if |pieces| == 1 then pieces[0] else pieces[0] + ("," + Commas(pieces[1..]))
  }

  lemma {:induction false} SplitSound(st: Scan, piece: string, text: string)
    requires Split(st, piece, text).Some?
    ensures Split(st, piece, text).value != [] && Commas(Split(st, piece, text).value) == piece + text
    ensures '\\' !in text
    decreases |text|
  {
    if text == "" {
      assert piece + text == piece;
    } else {
      var c, next := text[0], Next(st, text[0], true);
      Head(text);
      if c == ',' && next == START {
        SplitSound(next, "", text[1..]);
        var rest := Split(next, "", text[1..]).value;
        assert ([piece] + rest)[1..] == rest;
        assert "" + text[1..] == text[1..];
      } else {
        SplitSound(next, piece + [c], text[1..]);
        Assoc(piece, [c], text[1..]);
      }
    }
  }

  lemma {:induction false} EachSound(pieces: seq<string>, relative: bool, depth: nat, bound: nat)
    requires forall p | p in pieces :: |p| <= bound
    requires ParseEach(pieces, relative, depth, bound).Some?
    ensures var groups := ParseEach(pieces, relative, depth, bound).value;
      && |groups| == |pieces| && WriteGroups(groups, "") == Commas(pieces)
      && forall g | g in groups :: GoodGroup(g, relative, depth)
    decreases bound, 6, |pieces|
  {
    if pieces != [] {
      GroupSound(pieces[0], relative, depth);
      EachSound(pieces[1..], relative, depth, bound);
      var group := ParseGroup(pieces[0], relative, depth).value;
      var rest := ParseEach(pieces[1..], relative, depth, bound).value;
      assert ([group] + rest)[1..] == rest;
      GroupTail(group, "", "," + Commas(pieces[1..]));
      assert "" + ("," + Commas(pieces[1..])) == "," + Commas(pieces[1..]);
    }
  }

  /** Soundness of the reader: an accepted text is the one its syntax is written as. */
  lemma {:induction false} GroupsSound(text: string, relative: bool, depth: nat)
    requires ParseGroups(text, relative, depth).Some?
    ensures var groups := ParseGroups(text, relative, depth).value;
      WriteGroups(groups, "") == text && GoodGroups(groups, relative, depth) && depth <= MAX_DEPTH && '\\' !in text
    decreases |text|, 7
  {
    SplitSound(START, "", text);
    SplitBound(START, "", text);
    var pieces := Split(START, "", text).value;
    assert "" + text == text;
    EachSound(pieces, relative, depth, |text|);
  }
}
