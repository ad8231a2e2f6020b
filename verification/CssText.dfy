/** Selector text as the picker's compiler reads it: the concrete syntax of the accepted
    subset, with white space and quoting kept, how it is written, and the scanners of
    internal/web/assets/selector-frame.js that take it apart. */
module CssText {
  import opened Wrappers
  import Css

  predicate IsNameStart(c: char) { 'a' <= c <= 'z' || 'A' <= c <= 'Z' || c == '_' }

  predicate IsNameChar(c: char) { IsNameStart(c) || '0' <= c <= '9' || c == '-' }

  /** What a JavaScript regular expression's \s matches, and trim() removes. */
  predicate IsJsSpace(c: char) {
    || '\t' <= c <= '\r' || c == ' ' || c == '\U{00A0}' || c == '\U{1680}' || '\U{2000}' <= c <= '\U{200A}'
    || c == '\U{2028}' || c == '\U{2029}' || c == '\U{202F}' || c == '\U{205F}' || c == '\U{3000}' || c == '\U{FEFF}'
  }

  predicate IsQuote(c: char) { c == '"' || c == '\'' }

  /** Characters at which a compound selector ends. */
  predicate IsBreak(c: char) { IsJsSpace(c) || c == '>' || c == '+' || c == '~' }

  // ---------------------------------------------------------------- concrete syntax

  datatype Quoting = Double | Single | Bare

  datatype SimpleText =
    | ClassText(name: string)
    | IdText(name: string)
    | AttributeText(name: string)
    | AttributeIsText(name: string, before: string, after: string, quoting: Quoting, value: string)
    | NthText(digits: string)
    | HasText(groups: seq<GroupText>)
    | HasRaw(raw: string)  // :has() and :has(.), which are passed through

  /** What stands before a compound: white space, or a ">" with white space around it. */
  datatype Gap = Space(space: string) | Arrow(before: string, after: string)

  datatype LinkText = LinkText(gap: Gap, tag: string, simples: seq<SimpleText>)

  /** One comma-separated selector; `trail` is white space at its end. */
  datatype GroupText = GroupText(links: seq<LinkText>, trail: string)

  // Writing: each function puts its text in front of what follows.

  function WriteValue(quoting: Quoting, value: string, tail: string): string {
    match quoting
    case Double => "\"" + (value + ("\"" + tail))
    case Single => "'" + (value + ("'" + tail))
    case Bare => value + tail
  }

  function WriteSimple(s: SimpleText, tail: string): string
    decreases s, 0
  {
    match s
    case ClassText(name) => "." + (name + tail)
    case IdText(name) => "#" + (name + tail)
    case AttributeText(name) => "[" + (name + ("]" + tail))
    case AttributeIsText(name, before, after, quoting, value) =>
      "[" + (name + (before + ("=" + (after + WriteValue(quoting, value, "]" + tail)))))
    case NthText(digits) => ":nth-of-type(" + (digits + (")" + tail))
    case HasText(groups) => ":has(" + WriteGroups(groups, ")" + tail)
    case HasRaw(raw) => ":has(" + (raw + (")" + tail))
  }

  function WriteSimples(simples: seq<SimpleText>, tail: string): string
    decreases simples, 0
  {
    if simples == [] then tail else WriteSimple(simples[0], WriteSimples(simples[1..], tail))
  }

  function WriteGap(gap: Gap, tail: string): string {
    match gap
    case Space(space) => space + tail
    case Arrow(before, after) => before + (">" + (after + tail))
  }

  function WriteLink(link: LinkText, tail: string): string
    decreases link, 0
  {
    WriteGap(link.gap, link.tag + WriteSimples(link.simples, tail))
  }

  function WriteLinks(links: seq<LinkText>, tail: string): string
    decreases links, 0
  {
    if links == [] then tail else WriteLink(links[0], WriteLinks(links[1..], tail))
  }

  function WriteGroup(group: GroupText, tail: string): string
    decreases group, 0
  {
    WriteLinks(group.links, group.trail + tail)
  }

  function WriteGroups(groups: seq<GroupText>, tail: string): string
    decreases groups, 0
  {
    if groups == [] then tail
    else if |groups| == 1 then WriteGroup(groups[0], tail)
    else WriteGroup(groups[0], "," + WriteGroups(groups[1..], tail))
  }

  predicate IsName(text: string) {
    text != "" && IsNameStart(text[0]) && forall c | c in text :: IsNameChar(c)
  }

  predicate AllSpace(text: string) { forall c | c in text :: IsJsSpace(c) }

  predicate IsCount(digits: string) {
    digits != "" && '1' <= digits[0] <= '9' && forall c | c in digits :: '0' <= c <= '9'
  }

  predicate ValueFits(quoting: Quoting, value: string) {
    match quoting
    case Double => '"' !in value
    case Single => '\'' !in value
    case Bare => value != "" && forall c | c in value :: IsNameChar(c)
  }

  const MAX_DEPTH := 12

  predicate GapGood(gap: Gap) {
    if gap.Space? then AllSpace(gap.space) else AllSpace(gap.before) && AllSpace(gap.after)
  }

  /** The texts the compiler is to accept, `depth` levels of :has() down. */
  predicate GoodSimple(s: SimpleText, named: bool, depth: nat)
    decreases s, 0
  {
    match s
    case ClassText(name) => IsName(name)
    case IdText(name) => IsName(name)
    case AttributeText(name) => IsName(name)
    case AttributeIsText(name, before, after, quoting, value) =>
      IsName(name) && AllSpace(before) && AllSpace(after) && ValueFits(quoting, value)
    case NthText(digits) => named && IsCount(digits)
    case HasText(groups) => depth < MAX_DEPTH && GoodGroups(groups, true, depth + 1)
    case HasRaw(raw) => raw == "" || raw == "."
  }

  predicate GoodLink(link: LinkText, depth: nat)
    decreases link, 0
  {
    && (link.tag == "" || link.tag == "*" || IsName(link.tag))
    && (link.tag != "" || link.simples != [])
    && (forall s | s in link.simples :: GoodSimple(s, IsName(link.tag), depth))
    && GapGood(link.gap)
  }

  /** Only a relative selector may begin with ">"; later compounds need some gap. */
  predicate GoodGroup(group: GroupText, relative: bool, depth: nat)
    decreases group, 0
  {
    && group.links != [] && AllSpace(group.trail)
    && (forall link | link in group.links :: GoodLink(link, depth))
    && (group.links[0].gap.Arrow? ==> relative)
    && (forall i | 1 <= i < |group.links| :: group.links[i].gap != Space(""))
  }

  predicate GoodGroups(groups: seq<GroupText>, relative: bool, depth: nat)
    decreases groups, 0
  {
    groups != [] && forall g | g in groups :: GoodGroup(g, relative, depth)
  }

  /** A selector with `k` :has() inside one another. */
  function Nested(k: nat): seq<GroupText>
    decreases k, 1
  {
    [GroupText([NestedLink(k)], "")]
  }

  function NestedLink(k: nat): LinkText
    decreases k, 0
  {
    LinkText(Space(""), "a", if k == 0 then [] else [HasText(Nested(k - 1))])
  }

  lemma OneLinkIsGood(link: LinkText, relative: bool, depth: nat)
    requires link.gap == Space("")
    ensures GoodGroups([GroupText([link], "")], relative, depth) <==> GoodLink(link, depth)
  {
    var group := GroupText([link], "");
    assert group in [group] && link in group.links;
    assert GoodGroup(group, relative, depth) <==> GoodLink(link, depth);
  }

  lemma OneHasIsGood(groups: seq<GroupText>, depth: nat)
    ensures GoodLink(LinkText(Space(""), "a", [HasText(groups)]), depth)
            <==> depth < MAX_DEPTH && GoodGroups(groups, true, depth + 1)
  {
    var has := HasText(groups);
    assert has in [has];
    assert GoodSimple(has, true, depth) <==> depth < MAX_DEPTH && GoodGroups(groups, true, depth + 1);
  }

  /** Twelve may stand inside one another, and no more. */
  lemma {:induction false} NestingLimit(k: nat, relative: bool, depth: nat)
    requires depth <= 12
    ensures GoodGroups(Nested(k), relative, depth) <==> depth + k <= 12
    decreases k
  {
    OneLinkIsGood(NestedLink(k), relative, depth);
    if k > 0 {
      OneHasIsGood(Nested(k - 1), depth);
      if depth < 12 { NestingLimit(k - 1, true, depth + 1); }
    }
  }

  // ---------------------------------------------------------------- scanning

  /** A scanner's state: open brackets and the quote it is inside of. */
  datatype Scan = Scan(depth: int, quote: Option<char>)

  const START := Scan(0, None)

  /** Reading one character; :has() is closed by counting round brackets only. */
  function Next(st: Scan, c: char, square: bool): Scan {
    if st.quote.Some? then (if c == st.quote.value then Scan(st.depth, None) else st)
    else if IsQuote(c) then Scan(st.depth, Some(c))
    else if c == '(' || (square && c == '[') then Scan(st.depth + 1, None)
    else if c == ')' || (square && c == ']') then Scan(st.depth - 1, None)
    else st
  }

  /** splitGroups: the pieces between top-level commas; None when it throws. */
  function Split(st: Scan, piece: string, text: string): (groups: Option<seq<string>>)
    decreases |text|
  {
    if text == "" then (if st == START then Some([piece]) else None)
    else
      var c, next := text[0], Next(st, text[0], true);
      if c == '\\' || next.depth < 0 then None
      else if c == ',' && next == START then
        match Split(next, "", text[1..])
        case None => None
        case Some(rest) => Some([piece] + rest)
      else Split(next, piece + [c], text[1..])
  }

  /** Where the first compound of a selector ends. */
  function CompoundEnd(st: Scan, text: string): (end: nat)
    ensures end <= |text|
    decreases |text|
  {
    if text == "" || (st == START && IsBreak(text[0])) then 0
    else 1 + CompoundEnd(Next(st, text[0], true), text[1..])
  }

  /** Where the ")" that closes a :has( is; None when there is none. */
  function HasEnd(st: Scan, text: string): (end: Option<nat>)
    ensures end.Some? ==> end.value < |text| && text[end.value] == ')'
    decreases |text|
  {
    if text == "" then None
    else
      var next := Next(st, text[0], false);
      if text[0] == ')' && next == START then Some(0)
      else
        match HasEnd(next, text[1..])
        case None => None
        case Some(n) => Some(n + 1)
  }

  /** How many characters at the front satisfy a test. */
  function Run(text: string, test: char -> bool): (n: nat)
    ensures n <= |text| && (forall c | c in text[..n] :: test(c)) && (n < |text| ==> !test(text[n]))
    decreases |text|
  {
    if text == "" || !test(text[0]) then 0 else 1 + Run(text[1..], test)
  }

  /** The name at the front of a text, as [a-zA-Z_][a-zA-Z0-9_-]* matches it; 0 if none. */
  function NameLength(text: string): (n: nat)
    ensures n <= |text|
  {
    if text == "" || !IsNameStart(text[0]) then 0 else Run(text, IsNameChar)
  }

  function TrimLeft(text: string): string { text[Run(text, IsJsSpace)..] }

  function TrailLength(text: string): (n: nat)
    ensures n <= |text|
    decreases |text|
  {
    if text == "" || !IsJsSpace(text[|text| - 1]) then 0 else 1 + TrailLength(text[..|text| - 1])
  }

  function Trim(text: string): string {
    var left := TrimLeft(text);
    left[..|left| - TrailLength(left)]
  }
}
