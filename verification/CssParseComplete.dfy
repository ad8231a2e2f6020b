/** Every text of the grammar is accepted, and read back as the syntax it was written
    from: the scanners stop exactly where the writer put the ends. */
module CssParseComplete {
  import opened Wrappers
  import opened CssText
  import opened CssParse
  import opened CssParseSound

  // ---------------------------------------------------------------- scanning written text

  /** How a scanner reads: for the end of a :has(, for top-level commas, or for the end
      of a compound. */
  datatype Mode = Closing | Commas | Breaks

  function Square(m: Mode): bool { m != Closing }

  predicate Stops(m: Mode, c: char) { (m == Breaks && IsBreak(c)) || (m != Closing && c == ',') }

  /** Reading from state st, a scanner gets from `text` to the suffix `tail` with `base`
      brackets open, never closing one of those and never meeting a stop outside all
      brackets and quotes. */
  ghost predicate Clears(base: nat, st: Scan, text: string, tail: string, m: Mode)
    decreases |text|
  {
    if |text| <= |tail| then text == tail && st == Scan(base, None)
    else
      var next := Next(st, text[0], Square(m));
      && (st == START ==> !Stops(m, text[0]))
      && base <= next.depth && Clears(base, next, text[1..], tail, m)
  }

  lemma {:induction false} ClearsOn(base: nat, st: Scan, a: string, b: string, c: string, m: Mode)
    requires Clears(base, st, a, b, m) && Clears(base, Scan(base, None), b, c, m) && |c| <= |b|
    ensures Clears(base, st, a, c, m)
    decreases |a|
  {
    if |a| > |b| { ClearsOn(base, Next(st, a[0], Square(m)), a[1..], b, c, m); }
  }

  predicate Ordinary(c: char, base: nat, m: Mode) {
    !IsQuote(c) && c != '(' && c != ')' && c != '[' && c != ']' && (base == 0 ==> !Stops(m, c))
  }

  lemma {:induction false} ClearsOrdinary(base: nat, word: string, tail: string, m: Mode)
    requires forall c | c in word :: Ordinary(c, base, m)
    ensures Clears(base, Scan(base, None), word + tail, tail, m)
    decreases |word|
  {
    if word == "" {
      assert word + tail == tail;
    } else {
      assert word[0] in word && (word + tail)[0] == word[0] && (word + tail)[1..] == word[1..] + tail;
      ClearsOrdinary(base, word[1..], tail, m);
    }
  }

  lemma ClearsOne(base: nat, c: char, tail: string, m: Mode)
    requires Ordinary(c, base, m)
    ensures Clears(base, Scan(base, None), [c] + tail, tail, m)
  {
    ClearsOrdinary(base, [c], tail, m);
  }

  lemma {:induction false} ClearsQuoted(base: nat, quote: char, value: string, tail: string, m: Mode)
    requires IsQuote(quote) && quote !in value
    ensures Clears(base, Scan(base, Some(quote)), value + ([quote] + tail), tail, m)
    decreases |value|
  {
    var text := value + ([quote] + tail);
    if value == "" {
      assert text == [quote] + tail && text[1..] == tail;
    } else {
      assert text[1..] == value[1..] + ([quote] + tail);
      ClearsQuoted(base, quote, value[1..], tail, m);
    }
  }

  /** Text that clears inside one more bracket clears together with its closing bracket. */
  lemma {:induction false} ClearsClose(base: nat, st: Scan, text: string, close: char, tail: string, m: Mode)
    requires Clears(base + 1, st, text, [close] + tail, m)
    requires close == ')' || (close == ']' && Square(m))
    ensures Clears(base, st, text, tail, m)
    decreases |text|
  {
    if |text| > |tail| + 1 {
      ClearsClose(base, Next(st, text[0], Square(m)), text[1..], close, tail, m);
    } else {
      assert text[1..] == tail;
    }
  }

  // ---------------------------------------------------------------- written syntax clears

  lemma ValueClears(quoting: Quoting, value: string, tail: string, base: nat, m: Mode)
    requires ValueFits(quoting, value)
    ensures Clears(base, Scan(base, None), WriteValue(quoting, value, tail), tail, m)
  {
    match quoting
    case Double => ClearsQuoted(base, '"', value, tail, m);
    case Single => ClearsQuoted(base, '\'', value, tail, m);
    case Bare => ClearsOrdinary(base, value, tail, m);
  }

  /** Where white space may stand: inside a bracket, or for a scanner it does not stop. */
  predicate SpaceClear(base: nat, m: Mode) { 0 < base || m != Breaks }

  lemma AttributeBodyClears(s: SimpleText, tail: string, base: nat, m: Mode)
    requires s.AttributeIsText? && IsName(s.name) && AllSpace(s.before) && AllSpace(s.after)
    requires ValueFits(s.quoting, s.value)
    requires SpaceClear(base, m)
    ensures var body := s.name + (s.before + ("=" + (s.after + WriteValue(s.quoting, s.value, tail))));
      Clears(base, Scan(base, None), body, tail, m)
  {
    var value := WriteValue(s.quoting, s.value, tail);
    var right := s.after + value;
    var middle := s.before + ("=" + right);
    ValueClears(s.quoting, s.value, tail, base, m);
    ValueLonger(s.quoting, s.value, tail);
    ClearsOrdinary(base, s.after, value, m);
    ClearsOn(base, Scan(base, None), right, value, tail, m);
    ClearsOne(base, '=', right, m);
    ClearsOn(base, Scan(base, None), "=" + right, right, tail, m);
    ClearsOrdinary(base, s.before, "=" + right, m);
    ClearsOn(base, Scan(base, None), middle, "=" + right, tail, m);
    ClearsOrdinary(base, s.name, middle, m);
    ClearsOn(base, Scan(base, None), s.name + middle, middle, tail, m);
  }

  lemma ValueLonger(quoting: Quoting, value: string, tail: string)
    ensures |tail| <= |WriteValue(quoting, value, tail)|
  {
  }

  /** An opening bracket, text that clears inside it, and the closing one. */
  lemma ClearsBracket(base: nat, open: char, body: string, close: char, tail: string, m: Mode)
    requires (open == '(' && close == ')') || (open == '[' && close == ']' && Square(m))
    requires Clears(base + 1, Scan(base + 1, None), body, [close] + tail, m)
    requires |tail| < |body|
    ensures Clears(base, Scan(base, None), [open] + body, tail, m)
  {
    ClearsClose(base, Scan(base + 1, None), body, close, tail, m);
    assert ([open] + body)[1..] == body;
  }

  lemma AttributeClears(s: SimpleText, tail: string, base: nat, m: Mode)
    requires s.AttributeText? || s.AttributeIsText?
    requires GoodSimple(s, true, 0)
    ensures Clears(base, Scan(base, None), WriteSimple(s, tail), tail, m)
  {
    var inner := if Square(m) then base + 1 else base;
    var body := if s.AttributeText? then s.name + ("]" + tail)
                else s.name + (s.before + ("=" + (s.after + WriteValue(s.quoting, s.value, "]" + tail))));
    if s.AttributeText? {
      ClearsOrdinary(inner, s.name, "]" + tail, m);
    } else {
      AttributeBodyClears(s, "]" + tail, inner, m);
      ValueLonger(s.quoting, s.value, "]" + tail);
    }
    assert WriteSimple(s, tail) == "[" + body;
    if Square(m) {
      ClearsBracket(base, '[', body, ']', tail, m);
    } else {
      ClosingSkips(base, '[', body, body);
      ClosingSkips(base, ']', tail, tail);
      ClearsOn(base, Scan(base, None), body, "]" + tail, tail, m);
      ClearsOn(base, Scan(base, None), "[" + body, body, tail, m);
    }
  }

  /** Counting round brackets only, a square bracket is read over. */
  lemma ClosingSkips(base: nat, c: char, text: string, tail: string)
    requires (c == '[' || c == ']') && text == tail
    ensures Clears(base, Scan(base, None), [c] + text, tail, Closing)
  {
    assert ([c] + text)[1..] == text;
  }

  /** A pseudo-class call whose argument clears between its brackets. */
  lemma CallClears(name: string, open: string, body: string, tail: string, base: nat, m: Mode)
    requires open == name + "(" && forall c | c in name :: Ordinary(c, base, m)
    requires Clears(base + 1, Scan(base + 1, None), body, ")" + tail, m) && |tail| < |body|
    ensures |tail| < |open + body| && Clears(base, Scan(base, None), open + body, tail, m)
  {
    ClearsBracket(base, '(', body, ')', tail, m);
    ClearsOrdinary(base, name, "(" + body, m);
    ClearsOn(base, Scan(base, None), name + ("(" + body), "(" + body, tail, m);
    assert open + body == name + ("(" + body);
  }

  lemma NthOrdinary(base: nat, m: Mode)
    ensures forall c | c in ":nth-of-type" :: Ordinary(c, base, m)
  {
  }

  lemma NthClears(digits: string, tail: string, base: nat, m: Mode)
    requires IsCount(digits)
    ensures |tail| < |NTH + (digits + (")" + tail))|
    ensures Clears(base, Scan(base, None), NTH + (digits + (")" + tail)), tail, m)
  {
    ClearsOrdinary(base + 1, digits, ")" + tail, m);
    NthOrdinary(base, m);
    CallClears(":nth-of-type", NTH, digits + (")" + tail), tail, base, m);
  }

  lemma RawClears(raw: string, tail: string, base: nat, m: Mode)
    requires raw == "" || raw == "."
    ensures |tail| < |HAS + (raw + (")" + tail))|
    ensures Clears(base, Scan(base, None), HAS + (raw + (")" + tail)), tail, m)
  {
    ClearsOrdinary(base + 1, raw, ")" + tail, m);
    CallClears(":has", HAS, raw + (")" + tail), tail, base, m);
  }

  lemma {:induction false} SimpleClears(s: SimpleText, named: bool, depth: nat, tail: string, base: nat, m: Mode)
    requires GoodSimple(s, named, depth)
    ensures |tail| < |WriteSimple(s, tail)|
    ensures Clears(base, Scan(base, None), WriteSimple(s, tail), tail, m)
    decreases s, 0
  {
    match s
    case ClassText(name) => MarkClears('.', name, tail, base, m);
    case IdText(name) => MarkClears('#', name, tail, base, m);
    case AttributeText(_) => AttributeClears(s, tail, base, m);
    case AttributeIsText(_, _, _, quoting, value) =>
      AttributeClears(s, tail, base, m);
      ValueLonger(quoting, value, "]" + tail);
    case NthText(digits) => NthClears(digits, tail, base, m);
    case HasText(groups) => HasClears(groups, depth, tail, base, m);
    case HasRaw(raw) => RawClears(raw, tail, base, m);
  }

  lemma {:induction false} HasClears(groups: seq<GroupText>, depth: nat, tail: string, base: nat, m: Mode)
    requires GoodGroups(groups, true, depth + 1)
    ensures |tail| < |HAS + WriteGroups(groups, ")" + tail)|
    ensures Clears(base, Scan(base, None), HAS + WriteGroups(groups, ")" + tail), tail, m)
    decreases groups, 1
  {
    GroupsClear(groups, depth + 1, ")" + tail, base + 1, m);
    CallClears(":has", HAS, WriteGroups(groups, ")" + tail), tail, base, m);
  }

  lemma MarkClears(mark: char, name: string, tail: string, base: nat, m: Mode)
    requires IsName(name) && (mark == '.' || mark == '#')
    ensures Clears(base, Scan(base, None), [mark] + (name + tail), tail, m)
  {
    ClearsOrdinary(base, name, tail, m);
    ClearsOne(base, mark, name + tail, m);
    ClearsOn(base, Scan(base, None), [mark] + (name + tail), name + tail, tail, m);
  }

  lemma {:induction false} SimplesClear(simples: seq<SimpleText>, named: bool, depth: nat, tail: string, base: nat,
                                        m: Mode)
    requires forall s | s in simples :: GoodSimple(s, named, depth)
    ensures |tail| <= |WriteSimples(simples, tail)|
    ensures simples != [] ==> |tail| < |WriteSimples(simples, tail)|
    ensures Clears(base, Scan(base, None), WriteSimples(simples, tail), tail, m)
    decreases simples, 0
  {
    if simples != [] {
      var rest := WriteSimples(simples[1..], tail);
      SimplesClear(simples[1..], named, depth, tail, base, m);
      SimpleClears(simples[0], named, depth, rest, base, m);
      ClearsOn(base, Scan(base, None), WriteSimples(simples, tail), rest, tail, m);
    }
  }

  /** A compound: its tag and its simple selectors. */
  lemma {:induction false} CompoundClears(link: LinkText, depth: nat, tail: string, base: nat, m: Mode)
    requires GoodLink(link, depth)
    ensures var text := link.tag + WriteSimples(link.simples, tail);
      |tail| < |text| && Clears(base, Scan(base, None), text, tail, m)
    decreases link, 0
  {
    var rest := WriteSimples(link.simples, tail);
    SimplesClear(link.simples, IsName(link.tag), depth, tail, base, m);
    ClearsOrdinary(base, link.tag, rest, m);
    ClearsOn(base, Scan(base, None), link.tag + rest, rest, tail, m);
  }

  lemma GapClears(gap: Gap, tail: string, base: nat, m: Mode)
    requires GapGood(gap) && SpaceClear(base, m)
    ensures |tail| <= |WriteGap(gap, tail)| && Clears(base, Scan(base, None), WriteGap(gap, tail), tail, m)
  {
    match gap
    case Space(space) => ClearsOrdinary(base, space, tail, m);
    case Arrow(before, after) =>
      ClearsOrdinary(base, after, tail, m);
      ClearsOne(base, '>', after + tail, m);
      ClearsOn(base, Scan(base, None), ">" + (after + tail), after + tail, tail, m);
      ClearsOrdinary(base, before, ">" + (after + tail), m);
      ClearsOn(base, Scan(base, None), before + (">" + (after + tail)), ">" + (after + tail), tail, m);
  }

  lemma {:induction false} LinksClear(links: seq<LinkText>, depth: nat, tail: string, base: nat, m: Mode)
    requires SpaceClear(base, m) && forall link | link in links :: GoodLink(link, depth)
    ensures |tail| <= |WriteLinks(links, tail)| && (links != [] ==> |tail| < |WriteLinks(links, tail)|)
    ensures Clears(base, Scan(base, None), WriteLinks(links, tail), tail, m)
    decreases links, 0
  {
    if links != [] {
      var rest := WriteLinks(links[1..], tail);
      var compound := links[0].tag + WriteSimples(links[0].simples, rest);
      assert WriteLinks(links, tail) == WriteGap(links[0].gap, compound);
      LinksClear(links[1..], depth, tail, base, m);
      CompoundClears(links[0], depth, rest, base, m);
      GapClears(links[0].gap, compound, base, m);
      ClearsOn(base, Scan(base, None), WriteLinks(links, tail), compound, rest, m);
      ClearsOn(base, Scan(base, None), WriteLinks(links, tail), rest, tail, m);
    }
  }

  lemma {:induction false} GroupClears(group: GroupText, relative: bool, depth: nat, tail: string, base: nat, m: Mode)
    requires SpaceClear(base, m) && GoodGroup(group, relative, depth)
    ensures |tail| < |WriteGroup(group, tail)|
    ensures Clears(base, Scan(base, None), WriteGroup(group, tail), tail, m)
    decreases group, 0
  {
    LinksClear(group.links, depth, group.trail + tail, base, m);
    ClearsOrdinary(base, group.trail, tail, m);
    ClearsOn(base, Scan(base, None), WriteGroup(group, tail), group.trail + tail, tail, m);
  }

  lemma {:induction false} GroupsClear(groups: seq<GroupText>, depth: nat, tail: string, base: nat, m: Mode)
    requires 0 < base && GoodGroups(groups, true, depth)
    ensures |tail| < |WriteGroups(groups, tail)|
    ensures Clears(base, Scan(base, None), WriteGroups(groups, tail), tail, m)
    decreases groups, 0
  {
    if |groups| == 1 {
      GroupClears(groups[0], true, depth, tail, base, m);
    } else {
      var rest := WriteGroups(groups[1..], tail);
      GroupsClear(groups[1..], depth, tail, base, m);
      GroupClears(groups[0], true, depth, "," + rest, base, m);
      ClearsOne(base, ',', rest, m);
      ClearsOn(base, Scan(base, None), "," + rest, rest, tail, m);
      ClearsOn(base, Scan(base, None), WriteGroups(groups, tail), "," + rest, tail, m);
    }
  }

  // ---------------------------------------------------------------- where the scanners stop

  lemma {:induction false} HasEndAt(st: Scan, text: string, tail: string)
    requires Clears(1, st, text, ")" + tail, Closing)
    ensures HasEnd(st, text) == Some(|text| - |tail| - 1)
    decreases |text|
  {
    if |text| > |tail| + 1 { HasEndAt(Next(st, text[0], false), text[1..], tail); }
  }

  lemma {:induction false} CompoundEndAt(st: Scan, text: string, tail: string)
    requires Clears(0, st, text, tail, Breaks) && (tail == "" || IsBreak(tail[0]))
    ensures CompoundEnd(st, text) == |text| - |tail|
    decreases |text|
  {
    if |text| > |tail| { CompoundEndAt(Next(st, text[0], true), text[1..], tail); }
  }

  predicate Quotes(st: Scan) { st.quote.Some? ==> IsQuote(st.quote.value) }

  lemma {:induction false} SplitEnd(st: Scan, piece: string, text: string)
    requires Clears(0, st, text, "", Commas) && '\\' !in text && Quotes(st)
    ensures Split(st, piece, text) == Some([piece + text])
    decreases |text|
  {
    if text == "" {
      assert piece + text == piece;
    } else {
      assert text[0] in text;
      SplitEnd(Next(st, text[0], true), piece + [text[0]], text[1..]);
      assert piece + [text[0]] + text[1..] == piece + text;
    }
  }

  lemma {:induction false} SplitComma(st: Scan, piece: string, text: string, rest: string)
    requires Clears(0, st, text, "," + rest, Commas) && '\\' !in text && Quotes(st)
    requires Split(START, "", rest).Some?
    ensures Split(st, piece, text) == Some([piece + text[..|text| - |rest| - 1]] + Split(START, "", rest).value)
    decreases |text|
  {
    var n := |text| - |rest| - 1;
    if n == 0 {
      assert text[1..] == rest && piece + text[..0] == piece;
    } else {
      assert text[0] in text;
      SplitComma(Next(st, text[0], true), piece + [text[0]], text[1..], rest);
      assert piece + [text[0]] + text[1..][..n - 1] == piece + text[..n];
    }
  }

  lemma {:induction false} RunAt(word: string, tail: string, test: char -> bool)
    requires (forall c | c in word :: test(c)) && (tail == "" || !test(tail[0]))
    ensures Run(word + tail, test) == |word|
    decreases |word|
  {
    if word == "" {
      assert word + tail == tail;
    } else {
      assert word[0] in word && (word + tail)[0] == word[0] && (word + tail)[1..] == word[1..] + tail;
      RunAt(word[1..], tail, test);
    }
  }

  lemma Halves(a: string, b: string)
    ensures (a + b)[..|a|] == a && (a + b)[|a|..] == b
  {
  }

  // ---------------------------------------------------------------- reading back

  predicate EndsName(tail: string) { tail == "" || !IsNameChar(tail[0]) }

  lemma NameAt(name: string, tail: string)
    requires IsName(name) && EndsName(tail)
    ensures NameLength(name + tail) == |name|
  {
    RunAt(name, tail, IsNameChar);
    assert (name + tail)[0] == name[0];
  }

  lemma ValueBack(quoting: Quoting, value: string, tail: string)
    requires ValueFits(quoting, value) && EndsName(tail)
    ensures ParseValue(WriteValue(quoting, value, tail)) == Some(Parsed((quoting, value), tail))
  {
    var text := WriteValue(quoting, value, tail);
    if quoting == Bare {
      RunAt(value, tail, IsNameChar);
      Halves(value, tail);
      assert text[0] == value[0] && value[0] in value;
    } else {
      QuotedBack(if quoting == Double then '"' else '\'', value, tail);
    }
  }

  lemma QuotedBack(quote: char, value: string, tail: string)
    requires IsQuote(quote) && quote !in value
    ensures ParseValue([quote] + (value + ([quote] + tail)))
      == Some(Parsed((if quote == '"' then Double else Single, value), tail))
  {
    var body := value + ([quote] + tail);
    var text := [quote] + body;
    assert text[1..] == body && text[0] == quote;
    RunAt(value, [quote] + tail, c => c != text[0]);
    Halves(value, [quote] + tail);
    assert ([quote] + tail)[1..] == tail;
  }

  lemma AttributeValueBack(s: SimpleText, tail: string)
    requires s.AttributeIsText? && AllSpace(s.before) && AllSpace(s.after) && ValueFits(s.quoting, s.value)
    ensures var after := s.before + ("=" + (s.after + WriteValue(s.quoting, s.value, "]" + tail)));
      ParseAttributeValue(s.name, after) == Some(Parsed(s, tail))
  {
    var value := WriteValue(s.quoting, s.value, "]" + tail);
    var right := s.after + value;
    RunAt(s.before, "=" + right, IsJsSpace);
    Halves(s.before, "=" + right);
    assert ("=" + right)[1..] == right;
    assert value != "" && !IsJsSpace(value[0]) by {
      if s.quoting == Bare { assert value[0] == s.value[0] && s.value[0] in s.value; }
    }
    RunAt(s.after, value, IsJsSpace);
    Halves(s.after, value);
    ValueBack(s.quoting, s.value, "]" + tail);
    assert ("]" + tail)[1..] == tail;
  }

  lemma AttributeBack(s: SimpleText, tail: string)
    requires (s.AttributeText? || s.AttributeIsText?) && GoodSimple(s, true, 0)
    ensures WriteSimple(s, tail)[0] == '['
    ensures ParseAttribute(WriteSimple(s, tail)[1..]) == Some(Parsed(s, tail))
  {
    if s.AttributeText? {
      NameAt(s.name, "]" + tail);
      Halves(s.name, "]" + tail);
      assert WriteSimple(s, tail)[1..] == s.name + ("]" + tail);
      assert ("]" + tail)[1..] == tail;
    } else {
      var after := s.before + ("=" + (s.after + WriteValue(s.quoting, s.value, "]" + tail)));
      assert WriteSimple(s, tail)[1..] == s.name + after;
      assert after != "" && after[0] != ']' && !IsNameChar(after[0]) by {
        if s.before != "" { assert after[0] == s.before[0] && s.before[0] in s.before; }
      }
      NameAt(s.name, after);
      Halves(s.name, after);
      AttributeValueBack(s, tail);
    }
  }

  lemma CountAt(digits: string, tail: string)
    requires IsCount(digits)
    ensures CountLength(digits + (")" + tail)) == |digits|
  {
    RunAt(digits, ")" + tail, IsDigit);
    assert (digits + (")" + tail))[0] == digits[0];
  }

  lemma NthBack(digits: string, tail: string, depth: nat)
    requires IsCount(digits)
    ensures ParseSimple(NTH + (digits + (")" + tail)), true, depth) == Some(Parsed(NthText(digits), tail))
  {
    Halves(NTH, digits + (")" + tail));
    CountAt(digits, tail);
    Halves(digits, ")" + tail);
    assert (")" + tail)[1..] == tail;
  }

  /** A :has( whose argument ends where the scanner looks for the end. */
  lemma HasSplit(inner: string, body: string, tail: string)
    requires body == inner + (")" + tail) && Clears(1, Scan(1, None), body, ")" + tail, Closing)
    ensures HAS <= HAS + body && !(NTH <= HAS + body) && (HAS + body)[|HAS|..] == body
    ensures HasEnd(Scan(1, None), body) == Some(|inner|) && body[..|inner|] == inner && body[|inner|..][1..] == tail
  {
    Halves(HAS, body);
    Halves(inner, ")" + tail);
    HasEndAt(Scan(1, None), body, tail);
    assert (HAS + body)[1] == 'h';
    assert (")" + tail)[1..] == tail;
  }

  lemma HasReads(inner: string, body: string, tail: string, named: bool, depth: nat, groups: seq<GroupText>)
    requires body == inner + (")" + tail) && Clears(1, Scan(1, None), body, ")" + tail, Closing)
    requires inner != "" && inner != "." && ParseGroups(inner, true, depth + 1) == Some(groups)
    ensures ParseSimple(HAS + body, named, depth) == Some(Parsed(HasText(groups), tail))
  {
    HasSplit(inner, body, tail);
  }

  lemma NeverRaw(inner: string, depth: nat, groups: seq<GroupText>)
    requires ParseGroups(inner, true, depth) == Some(groups) && groups != []
    ensures inner != "" && inner != "."
    decreases groups, 1
  {
    DotRejected(depth);
    NothingRejected(depth);
  }

  lemma {:induction false} HasBack(groups: seq<GroupText>, named: bool, depth: nat, tail: string)
    requires GoodSimple(HasText(groups), named, depth) && '\\' !in WriteGroups(groups, ")" + tail)
    ensures ParseSimple(HAS + WriteGroups(groups, ")" + tail), named, depth) == Some(Parsed(HasText(groups), tail))
    decreases groups, 2
  {
    var inner, body := WriteGroups(groups, ""), WriteGroups(groups, ")" + tail);
    GroupsTail(groups, "", ")" + tail);
    NoText(")" + tail);
    GroupsClear(groups, depth + 1, ")" + tail, 1, Closing);
    GroupsBack(groups, true, depth + 1);
    NeverRaw(inner, depth + 1, groups);
    HasReads(inner, body, tail, named, depth, groups);
  }

  lemma RawBack(raw: string, named: bool, depth: nat, tail: string)
    requires raw == "" || raw == "."
    ensures ParseSimple(HAS + (raw + (")" + tail)), named, depth) == Some(Parsed(HasRaw(raw), tail))
  {
    ClearsOrdinary(1, raw, ")" + tail, Closing);
    HasSplit(raw, raw + (")" + tail), tail);
  }

  lemma MarkBack(s: SimpleText, named: bool, depth: nat, tail: string)
    requires (s.ClassText? || s.IdText?) && IsName(s.name) && EndsName(tail)
    ensures ParseSimple(WriteSimple(s, tail), named, depth) == Some(Parsed(s, tail))
  {
    NameAt(s.name, tail);
    Halves(s.name, tail);
    assert WriteSimple(s, tail)[1..] == s.name + tail;
  }

  lemma {:induction false} SimpleBack(s: SimpleText, named: bool, depth: nat, tail: string)
    requires GoodSimple(s, named, depth) && EndsName(tail) && '\\' !in WriteSimple(s, tail)
    ensures WriteSimple(s, tail) != ""
    ensures ParseSimple(WriteSimple(s, tail), named, depth) == Some(Parsed(s, tail))
    decreases s, 0
  {
    match s
    case ClassText(_) => MarkBack(s, named, depth, tail);
    case IdText(_) => MarkBack(s, named, depth, tail);
    case AttributeText(_) => AttributeBack(s, tail);
    case AttributeIsText(_, _, _, _, _) => AttributeBack(s, tail);
    case NthText(digits) => NthBack(digits, tail, depth);
    case HasText(groups) => HasBack(groups, named, depth, tail);
    case HasRaw(raw) => RawBack(raw, named, depth, tail);
  }

  lemma SimpleStarts(s: SimpleText, tail: string)
    ensures var text := WriteSimple(s, tail); text != "" && text[0] in ".#[:"
  {
  }

  lemma SimplesStep(text: string, named: bool, depth: nat, s: SimpleText, rest: string, simples: seq<SimpleText>)
    requires text != "" && ParseSimple(text, named, depth) == Some(Parsed(s, rest))
    requires ParseSimples(rest, named, depth) == Some(simples)
    ensures ParseSimples(text, named, depth) == Some([s] + simples)
  {
  }

  /** What stands in a text without escapes has none. */
  lemma RestLacks(s: SimpleText, rest: string)
    requires '\\' !in WriteSimple(s, rest)
    ensures '\\' !in rest
  {
    SimpleTail(s, "", rest);
    NoText(rest);
  }

  lemma {:induction false} SimplesBack(simples: seq<SimpleText>, named: bool, depth: nat)
    requires (forall s | s in simples :: GoodSimple(s, named, depth)) && '\\' !in WriteSimples(simples, "")
    ensures ParseSimples(WriteSimples(simples, ""), named, depth) == Some(simples)
    decreases simples, 0
  {
    if simples != [] {
      var s, rest := simples[0], WriteSimples(simples[1..], "");
      assert WriteSimples(simples, "") == WriteSimple(s, rest);
      if |simples| > 1 { SimpleStarts(simples[1], WriteSimples(simples[1..][1..], "")); }
      RestLacks(s, rest);
      SimplesBack(simples[1..], named, depth);
      SimpleBack(s, named, depth, rest);
      SimplesStep(WriteSimple(s, rest), named, depth, s, rest, simples[1..]);
      assert [s] + simples[1..] == simples;
    }
  }

  /** The text of a compound, and of the compounds after its gap. */
  function CompoundText(link: LinkText, tail: string): string { link.tag + WriteSimples(link.simples, tail) }

  lemma TagAt(link: LinkText, depth: nat, tail: string)
    requires GoodLink(link, depth) && (link.simples == [] ==> tail == "")
    ensures TagLength(CompoundText(link, tail)) == |link.tag|
  {
    var rest := WriteSimples(link.simples, tail);
    if link.simples != [] { SimpleStarts(link.simples[0], WriteSimples(link.simples[1..], tail)); }
    if link.tag == "" {
      assert CompoundText(link, tail) == rest;
    } else if link.tag != "*" {
      NameAt(link.tag, rest);
    }
  }

  lemma {:induction false} CompoundBack(link: LinkText, depth: nat)
    requires GoodLink(link, depth) && '\\' !in CompoundText(link, "")
    ensures ParseCompound(link.gap, CompoundText(link, ""), depth) == Some(link)
    decreases link, 0
  {
    TagAt(link, depth, "");
    Halves(link.tag, WriteSimples(link.simples, ""));
    SimplesBack(link.simples, IsName(link.tag), depth);
  }

  /** A lone "." is not a selector. */
  lemma DotRejected(depth: nat)
    ensures ParseGroups(".", true, depth).None?
  {
    var dot := ".";
    assert dot[1..] == "" && [] + [dot[0]] == dot;
    assert Split(Next(START, '.', true), dot, dot[1..]) == Some([dot]);
    assert Split(START, "", dot) == Some([dot]);
    DotGroupRejected(dot, depth);
  }

  lemma NothingRejected(depth: nat)
    ensures ParseGroups("", true, depth).None?
  {
    var nothing := "";
    assert Split(START, "", nothing) == Some([nothing]);
    assert Trim(nothing) == "" && ParseLinks(Space(nothing), "", depth).None?;
    assert nothing[..Run(nothing, IsJsSpace)] == nothing;
    assert ParseGroup(nothing, true, depth).None?;
  }

  lemma DotGroupRejected(dot: string, depth: nat)
    requires dot == "."
    ensures ParseGroup(dot, true, depth).None?
  {
    NoText(dot);
    TrimAt("", dot, "");
    assert dot[1..] == "";
    assert CompoundEnd(Next(START, '.', true), "") == 0;
    assert dot[..1] == dot && dot[0..] == dot;
    assert ParseSimple(dot, false, depth).None?;
    assert ParseCompound(Space(""), dot, depth).None?;
  }

  // ---------------------------------------------------------------- white space

  lemma {:induction false} TrailAt(mid: string, trail: string)
    requires AllSpace(trail) && RightTrimmed(mid)
    ensures TrailLength(mid + trail) == |trail|
    decreases |trail|
  {
    var text := mid + trail;
    if trail == "" {
      assert text == mid;
    } else {
      var n := |trail| - 1;
      assert trail[n] in trail && text[|text| - 1] == trail[n];
      assert text[..|text| - 1] == mid + trail[..n];
      TrailAt(mid, trail[..n]);
    }
  }

  /** Trimming finds a text between the white space put around it. */
  lemma TrimAt(lead: string, mid: string, trail: string)
    requires AllSpace(lead) && AllSpace(trail) && mid != "" && !IsJsSpace(mid[0]) && RightTrimmed(mid)
    ensures var text := lead + (mid + trail);
      && Run(text, IsJsSpace) == |lead| && text[..|lead|] == lead && Trim(text) == mid
      && TrimLeft(text)[|mid|..] == trail
  {
    RunAt(lead, mid + trail, IsJsSpace);
    Halves(lead, mid + trail);
    TrailAt(mid, trail);
    Halves(mid, trail);
  }

  lemma TrimBefore(lead: string, mid: string)
    requires AllSpace(lead) && mid != "" && !IsJsSpace(mid[0]) && RightTrimmed(mid)
    ensures var text := lead + mid; Run(text, IsJsSpace) == |lead| && text[..|lead|] == lead && Trim(text) == mid
  {
    TrimAt(lead, mid, "");
    assert mid + "" == mid;
  }

  lemma EndsAfter(a: string, b: string)
    requires b != "" && RightTrimmed(b)
    ensures RightTrimmed(a + b)
  {
  }

  lemma SimpleEnds(s: SimpleText, named: bool, depth: nat)
    requires GoodSimple(s, named, depth)
    ensures WriteSimple(s, "") != "" && RightTrimmed(WriteSimple(s, ""))
  {
    match s
    case ClassText(name) => NameEnds(name); EndsAfter(".", name); assert name + "" == name;
    case IdText(name) => NameEnds(name); EndsAfter("#", name); assert name + "" == name;
    case AttributeText(name) => AttributeEnds(s);
    case AttributeIsText(_, _, _, _, _) => AttributeEnds(s);
    case NthText(digits) => EndsAfter(NTH + digits, ")"); assert WriteSimple(s, "") == NTH + digits + ")";
    case HasText(groups) =>
      GroupsTail(groups, "", ")");
      NoText(")");
      EndsAfter(HAS + WriteGroups(groups, ""), ")");
      assert WriteSimple(s, "") == HAS + WriteGroups(groups, "") + ")";
    case HasRaw(raw) => EndsAfter(HAS + raw, ")"); assert WriteSimple(s, "") == HAS + raw + ")";
  }

  lemma AttributeEnds(s: SimpleText)
    requires s.AttributeText? || s.AttributeIsText?
    ensures WriteSimple(s, "") != "" && RightTrimmed(WriteSimple(s, ""))
  {
    if s.AttributeText? {
      SimpleTail(s, "", "");
      EndsAfter("[" + s.name, "]");
      assert WriteSimple(s, "") == "[" + s.name + "]";
    } else {
      ValueTail(s.quoting, s.value, "", "]");
      assert "" + "]" == "]" + "";
      var v := WriteValue(s.quoting, s.value, "");
      EndsAfter("[" + (s.name + (s.before + ("=" + (s.after + v)))), "]");
      assert WriteSimple(s, "") == "[" + (s.name + (s.before + ("=" + (s.after + v)))) + "]";
    }
  }

  lemma NameEnds(name: string)
    requires IsName(name)
    ensures RightTrimmed(name)
  {
    assert name[|name| - 1] in name;
  }

  lemma {:induction false} SimplesEnd(simples: seq<SimpleText>, named: bool, depth: nat)
    requires simples != [] && forall s | s in simples :: GoodSimple(s, named, depth)
    ensures WriteSimples(simples, "") != "" && RightTrimmed(WriteSimples(simples, ""))
    decreases |simples|
  {
    var rest := WriteSimples(simples[1..], "");
    SimpleEnds(simples[0], named, depth);
    if |simples| > 1 {
      SimplesEnd(simples[1..], named, depth);
      SimpleTail(simples[0], "", rest);
      assert "" + rest == rest;
      EndsAfter(WriteSimple(simples[0], ""), rest);
    }
  }

  predicate CoreFits(core: string) { core != "" && !IsJsSpace(core[0]) && core[0] != '>' && RightTrimmed(core) }

  lemma OwnEnds(link: LinkText, depth: nat)
    requires GoodLink(link, depth)
    ensures CoreFits(CompoundText(link, ""))
  {
    var simples := WriteSimples(link.simples, "");
    NoText(link.tag);
    NoText(simples);
    if link.simples == [] {
      if link.tag != "*" { NameEnds(link.tag); }
    } else {
      SimplesFit(link.simples, IsName(link.tag), depth);
      EndsAfter(link.tag, simples);
      if link.tag != "" { assert (link.tag + simples)[0] == link.tag[0]; }
    }
  }

  lemma SimplesFit(simples: seq<SimpleText>, named: bool, depth: nat)
    requires simples != [] && forall s | s in simples :: GoodSimple(s, named, depth)
    ensures CoreFits(WriteSimples(simples, ""))
  {
    SimplesEnd(simples, named, depth);
    SimpleStarts(simples[0], WriteSimples(simples[1..], ""));
  }

  /** A compound begins and ends with something other than white space, and not with ">". */
  lemma CompoundEnds(link: LinkText, depth: nat, tail: string)
    requires GoodLink(link, depth) && RightTrimmed(tail)
    ensures CoreFits(CompoundText(link, tail)) && CompoundText(link, tail) == CompoundText(link, "") + tail
  {
    var own := CompoundText(link, "");
    SimplesTail(link.simples, "", tail);
    NoText(tail);
    Assoc(link.tag, WriteSimples(link.simples, ""), tail);
    OwnEnds(link, depth);
    assert (own + tail)[0] == own[0];
    if tail == "" { assert own + tail == own; } else { EndsAfter(own, tail); }
  }

  // ---------------------------------------------------------------- whole selectors

  ghost predicate GoodLinks(links: seq<LinkText>, depth: nat) {
    && links != [] && (forall link | link in links :: GoodLink(link, depth))
    && forall i | 1 <= i < |links| :: links[i].gap != Space("")
  }

  /** The text of some compounds without the gap before the first. */
  function Core(links: seq<LinkText>): string
    requires links != []
  {
    CompoundText(links[0], WriteLinks(links[1..], ""))
  }

  lemma {:induction false} CoreEnds(links: seq<LinkText>, depth: nat)
    requires GoodLinks(links, depth)
    ensures var text := Core(links); text != "" && !IsJsSpace(text[0]) && text[0] != '>' && RightTrimmed(text)
    ensures WriteLinks(links, "") == WriteGap(links[0].gap, Core(links)) && RightTrimmed(WriteLinks(links, ""))
    decreases |links|
  {
    if |links| > 1 { CoreEnds(links[1..], depth); }
    CompoundEnds(links[0], depth, WriteLinks(links[1..], ""));
    match links[0].gap
    case Space(space) => EndsAfter(space, Core(links));
    case Arrow(before, after) =>
      EndsAfter(after, Core(links));
      EndsAfter(">", after + Core(links));
      EndsAfter(before, ">" + (after + Core(links)));
  }

  /** What a gap looks like from the compound before it. */
  lemma GapAt(gap: Gap, core: string)
    requires GapGood(gap) && gap != Space("") && core != "" && !IsJsSpace(core[0]) && core[0] != '>'
    requires RightTrimmed(core)
    ensures var text := WriteGap(gap, core); text != "" && IsBreak(text[0])
    ensures gap.Space? ==> var text := WriteGap(gap, core);
      Trim(text) == core && text[..Run(text, IsJsSpace)] == gap.space
    ensures gap.Arrow? ==> var text, right := WriteGap(gap, core), gap.after + core;
      && text[..Run(text, IsJsSpace)] == gap.before && Trim(text) == ">" + right && Trim(text)[1..] == right
      && right[..Run(right, IsJsSpace)] == gap.after && Trim(right) == core
  {
    if gap.Space? {
      TrimBefore(gap.space, core);
      assert gap.space[0] in gap.space && (gap.space + core)[0] == gap.space[0];
    } else {
      var right := gap.after + core;
      TrimBefore(gap.after, core);
      EndsAfter(gap.after, core);
      EndsAfter(">", right);
      TrimBefore(gap.before, ">" + right);
      if gap.before != "" { assert gap.before[0] in gap.before; }
    }
  }

  /** The scanner finds the end of the first compound, and the reader that compound. */
  lemma {:induction false} FirstBack(link: LinkText, rest: string, depth: nat)
    requires GoodLink(link, depth) && '\\' !in CompoundText(link, rest)
    requires RightTrimmed(rest) && (rest == "" || IsBreak(rest[0]))
    ensures var text := CompoundText(link, rest);
      var end := CompoundEnd(START, text);
      0 < end && ParseCompound(link.gap, text[..end], depth) == Some(link) && text[end..] == rest
    decreases link, 1
  {
    CompoundEnds(link, depth, rest);
    CompoundEnds(link, depth, "");
    CompoundClears(link, depth, rest, 0, Breaks);
    CompoundEndAt(START, CompoundText(link, rest), rest);
    Halves(CompoundText(link, ""), rest);
    CompoundBack(link, depth);
  }

  /** The compounds after the first, and the gap between. */
  lemma TailGood(links: seq<LinkText>, depth: nat)
    requires |links| > 1 && GoodLinks(links, depth)
    ensures GoodLinks(links[1..], depth) && GoodLink(links[0], depth)
    ensures GapGood(links[1].gap) && links[1].gap != Space("")
    ensures CoreFits(Core(links[1..]))
    ensures Core(links) == CompoundText(links[0], WriteGap(links[1].gap, Core(links[1..])))
  {
    assert links[1] in links && GoodLink(links[1], depth);
    assert forall i | 1 <= i < |links[1..]| :: links[1..][i] == links[i + 1];
    CoreEnds(links[1..], depth);
  }

  lemma CoreLacks(link: LinkText, gap: Gap, core: string)
    requires '\\' !in CompoundText(link, WriteGap(gap, core))
    ensures '\\' !in core
  {
    GapTail(gap, "", core);
    NoText(core);
    SimplesTail(link.simples, "", WriteGap(gap, core));
    NoText(WriteGap(gap, core));
  }

  lemma LinksStep(text: string, depth: nat, link: LinkText, gap: Gap, core: string, links: seq<LinkText>)
    requires var end := CompoundEnd(START, text);
      0 < end && ParseCompound(link.gap, text[..end], depth) == Some(link) && text[end..] == WriteGap(gap, core)
    requires GapGood(gap) && gap != Space("") && CoreFits(core)
    requires ParseLinks(gap, core, depth) == Some(links)
    ensures ParseLinks(link.gap, text, depth) == Some([link] + links)
  {
    GapAt(gap, core);
  }

  lemma {:induction false} LastBack(link: LinkText, depth: nat)
    requires GoodLink(link, depth) && '\\' !in CompoundText(link, "")
    ensures ParseLinks(link.gap, CompoundText(link, ""), depth) == Some([link])
    decreases link, 2
  {
    FirstBack(link, "", depth);
    LinksLast(link, depth);
  }

  lemma {:induction false} LinksBack(links: seq<LinkText>, depth: nat)
    requires GoodLinks(links, depth) && '\\' !in Core(links)
    ensures ParseLinks(links[0].gap, Core(links), depth) == Some(links)
    decreases links, 3
  {
    if |links| == 1 {
      assert links == [links[0]] && links[1..] == [] && links[0] in links;
      LastBack(links[0], depth);
    } else {
      var rest := links[1..];
      var core := Core(rest);
      TailGood(links, depth);
      CoreLacks(links[0], links[1].gap, core);
      LinksBack(rest, depth);
      assert rest[0] == links[1] && [links[0]] + rest == links;
      LinksPrepend(links[0], links[1].gap, core, depth, rest);
    }
  }

  lemma {:induction false} LinksPrepend(link: LinkText, gap: Gap, core: string, depth: nat, links: seq<LinkText>)
    requires GoodLink(link, depth) && GapGood(gap) && gap != Space("") && CoreFits(core)
    requires '\\' !in CompoundText(link, WriteGap(gap, core)) && ParseLinks(gap, core, depth) == Some(links)
    ensures ParseLinks(link.gap, CompoundText(link, WriteGap(gap, core)), depth) == Some([link] + links)
    decreases link, 2
  {
    GapAt(gap, core);
    if gap.Space? { EndsAfter(gap.space, core); }
    else {
      EndsAfter(gap.after, core);
      EndsAfter(">", gap.after + core);
      EndsAfter(gap.before, ">" + (gap.after + core));
    }
    FirstBack(link, WriteGap(gap, core), depth);
    LinksStep(CompoundText(link, WriteGap(gap, core)), depth, link, gap, core, links);
  }

  lemma LinksLast(link: LinkText, depth: nat)
    requires var text := CompoundText(link, "");
      var end := CompoundEnd(START, text);
      0 < end && ParseCompound(link.gap, text[..end], depth) == Some(link) && text[end..] == ""
    ensures ParseLinks(link.gap, CompoundText(link, ""), depth) == Some([link])
  {
  }

  /** How a written group looks to the trimming reader. */
  lemma GroupTrimmed(group: GroupText, relative: bool, depth: nat)
    requires GoodGroup(group, relative, depth)
    ensures var gap, core := group.links[0].gap, Core(group.links);
      var lead := if gap.Space? then gap.space else gap.before;
      var mid := if gap.Space? then core else ">" + (gap.after + core);
      && WriteGroup(group, "") == lead + (mid + group.trail)
      && AllSpace(lead) && mid != "" && !IsJsSpace(mid[0]) && RightTrimmed(mid)
  {
    var links, core := group.links, Core(group.links);
    var gap := links[0].gap;
    assert GoodLink(links[0], depth) by { assert links[0] in links; }
    CoreEnds(links, depth);
    LinksTail(links, "", group.trail);
    NoText(group.trail);
    GapTail(gap, core, group.trail);
    if gap.Arrow? {
      EndsAfter(gap.after, core);
      EndsAfter(">", gap.after + core);
      Assoc(gap.after, core, group.trail);
      Assoc(">", gap.after + core, group.trail);
    }
  }

  lemma CoreInGroup(group: GroupText, relative: bool, depth: nat)
    requires GoodGroup(group, relative, depth) && '\\' !in WriteGroup(group, "")
    ensures '\\' !in Core(group.links)
  {
    GroupTrimmed(group, relative, depth);
  }

  lemma GroupStep(gap: Gap, core: string, trail: string, relative: bool, depth: nat, links: seq<LinkText>)
    requires GapGood(gap) && AllSpace(trail) && CoreFits(core) && (gap.Arrow? ==> relative)
    requires ParseLinks(gap, core, depth) == Some(links)
    ensures var lead := if gap.Space? then gap.space else gap.before;
      var mid := if gap.Space? then core else ">" + (gap.after + core);
      ParseGroup(lead + (mid + trail), relative, depth) == Some(GroupText(links, trail))
  {
    if gap.Space? {
      TrimAt(gap.space, core, trail);
    } else {
      var right := gap.after + core;
      TrimBefore(gap.after, core);
      EndsAfter(gap.after, core);
      EndsAfter(">", right);
      TrimAt(gap.before, ">" + right, trail);
      assert (">" + right)[1..] == right;
    }
  }

  lemma {:induction false} GroupBack(group: GroupText, relative: bool, depth: nat)
    requires GoodGroup(group, relative, depth) && '\\' !in WriteGroup(group, "")
    ensures ParseGroup(WriteGroup(group, ""), relative, depth) == Some(group)
    decreases group, 4
  {
    var links := group.links;
    assert GoodLink(links[0], depth) by { assert links[0] in links; }
    GroupTrimmed(group, relative, depth);
    CoreInGroup(group, relative, depth);
    CoreEnds(links, depth);
    LinksBack(links, depth);
    GroupStep(links[0].gap, Core(links), group.trail, relative, depth, links);
  }

  lemma {:induction false} EachBack(groups: seq<GroupText>, relative: bool, depth: nat, pieces: seq<string>, bound: nat)
    requires |pieces| == |groups| && forall i | 0 <= i < |groups| :: pieces[i] == WriteGroup(groups[i], "")
    requires forall i | 0 <= i < |groups| ::
      GoodGroup(groups[i], relative, depth) && '\\' !in pieces[i] && |pieces[i]| <= bound
    ensures ParseEach(pieces, relative, depth, bound) == Some(groups)
    decreases groups, 0
  {
    if groups != [] {
      GroupBack(groups[0], relative, depth);
      EachBack(groups[1..], relative, depth, pieces[1..], bound);
      assert [groups[0]] + groups[1..] == groups;
    }
  }

  /** The pieces the commas of a written list separate. */
  function Pieces(groups: seq<GroupText>): (pieces: seq<string>)
    ensures |pieces| == |groups| && forall i | 0 <= i < |groups| :: pieces[i] == WriteGroup(groups[i], "")
  {
    seq(|groups|, i requires 0 <= i < |groups| => WriteGroup(groups[i], ""))
  }

  lemma {:induction false} SplitBack(groups: seq<GroupText>, relative: bool, depth: nat)
    requires GoodGroups(groups, relative, depth) && '\\' !in WriteGroups(groups, "")
    ensures Split(START, "", WriteGroups(groups, "")) == Some(Pieces(groups))
    ensures forall p | p in Pieces(groups) :: '\\' !in p
    decreases |groups|
  {
    var text, own := WriteGroups(groups, ""), WriteGroup(groups[0], "");
    assert "" + own == own;
    if |groups| == 1 {
      GroupClears(groups[0], relative, depth, "", 0, Commas);
      SplitEnd(START, "", text);
      assert Pieces(groups) == [own];
    } else {
      var rest := WriteGroups(groups[1..], "");
      GroupTail(groups[0], "", "," + rest);
      assert "" + ("," + rest) == "," + rest;
      Halves(own, "," + rest);
      GroupClears(groups[0], relative, depth, "," + rest, 0, Commas);
      SplitBack(groups[1..], relative, depth);
      SplitComma(START, "", text, rest);
      assert Pieces(groups) == [own] + Pieces(groups[1..]);
    }
  }

  /** Completeness of the reader: every text of the grammar is read as its own syntax. */
  lemma {:induction false} GroupsBack(groups: seq<GroupText>, relative: bool, depth: nat)
    requires GoodGroups(groups, relative, depth) && depth <= MAX_DEPTH && '\\' !in WriteGroups(groups, "")
    ensures ParseGroups(WriteGroups(groups, ""), relative, depth) == Some(groups)
    decreases groups, 1
  {
    var text := WriteGroups(groups, "");
    SplitBack(groups, relative, depth);
    SplitBound(START, "", text);
    assert forall i | 0 <= i < |groups| :: Pieces(groups)[i] in Pieces(groups);
    EachBack(groups, relative, depth, Pieces(groups), |text|);
  }

  /** The compiler reads exactly the grammar: a text without escapes is accepted when and
      only when some syntax is written that way, and then only one is. */
  lemma AcceptsExactlyTheGrammar(text: string, relative: bool, groups: seq<GroupText>)
    ensures ParseGroups(text, relative, 0) == Some(groups)
            <==> GoodGroups(groups, relative, 0) && WriteGroups(groups, "") == text && '\\' !in text
  {
    if ParseGroups(text, relative, 0).Some? { GroupsSound(text, relative, 0); }
    if GoodGroups(groups, relative, 0) && WriteGroups(groups, "") == text && '\\' !in text {
      GroupsBack(groups, relative, 0);
    }
  }
}
