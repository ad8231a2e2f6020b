/** What an accepted selector means in CSS, and that the XPath text written for it is the
    text of paths that mean the same. */
module CssFaithful {
  import opened Wrappers
  import opened CssText
  import opened CssParse
  import opened CssCompiler
  import opened CssToXPath
  import CssParseSound
  import CssParseComplete
  import ClassWords
  import C = Css
  import X = XPath
  import T = XPathText
  import R = XPathRead
  import D = Document

  // ---------------------------------------------------------------- the selector a text denotes

  function DenoteSimple(s: SimpleText): C.Simple
    decreases s, 0
  {
    match s
    case ClassText(name) => C.Class(name)
    case IdText(name) => C.Id(name)
    case AttributeText(name) => C.Attribute(name)
    case AttributeIsText(name, _, _, _, value) => C.AttributeIs(name, value)
    case NthText(digits) => C.NthOfType(if IsCount(digits) then Value(digits) else 0)
    case HasText(groups) => C.Has(DenoteGroups(groups))
    case HasRaw(raw) => C.Has(if raw == "." then [C.Complex([])] else [])
  }

  function DenoteSimples(simples: seq<SimpleText>): seq<C.Simple>
    decreases simples, 0
  {
    if simples == [] then [] else [DenoteSimple(simples[0])] + DenoteSimples(simples[1..])
  }

  function DenoteLink(link: LinkText): C.Link
    decreases link, 0
  {
    C.Link(if link.gap.Arrow? then C.Child else C.Descendant,
           C.Compound(if link.tag == "" || link.tag == "*" then C.Any else C.Named(link.tag),
                      DenoteSimples(link.simples)))
  }

  function DenoteLinks(links: seq<LinkText>): seq<C.Link>
    decreases links, 0
  {
    if links == [] then [] else [DenoteLink(links[0])] + DenoteLinks(links[1..])
  }

  function DenoteGroup(group: GroupText): C.Complex
    decreases group, 0
  {
    C.Complex(DenoteLinks(group.links))
  }

  function DenoteGroups(groups: seq<GroupText>): seq<C.Complex>
    decreases groups, 0
  {
    if groups == [] then [] else [DenoteGroup(groups[0])] + DenoteGroups(groups[1..])
  }

  /** A CSS identifier, as an unquoted attribute value must be, in the letters accepted here. */
  predicate IsIdentifier(text: string) {
    IsName(text) || (|text| >= 2 && text[0] == '-' && (IsNameStart(text[1]) || text[1] == '-'))
  }

  predicate CssSpace(text: string) { forall c | c in text :: C.IsSpace(c) }

  predicate CssGap(gap: Gap) {
    if gap.Space? then CssSpace(gap.space) else CssSpace(gap.before) && CssSpace(gap.after)
  }

  predicate IsLineBreak(c: char) { c == '\n' || c == '\r' || c == '\U{000C}' }

  /** Text that CSS reads the same way: its own white space, strings and identifiers, and
      no :has() without a selector; and whose counts the step can express. */
  predicate CssSimple(s: SimpleText)
    decreases s, 0
  {
    match s
    case AttributeIsText(_, before, after, quoting, value) =>
      && CssSpace(before) && CssSpace(after)
      && (if quoting == Bare then IsIdentifier(value) else forall c | c in value :: !IsLineBreak(c))
    case HasText(groups) => forall g | g in groups :: CssGroup(g)
    case HasRaw(_) => false
    case _ => true
  }

  predicate CssLink(link: LinkText)
    decreases link, 0
  {
    && CssGap(link.gap) && (forall s | s in link.simples :: CssSimple(s))
    && CountsAgree(Counts(DenoteSimples(link.simples)))
  }

  predicate CssGroup(group: GroupText)
    decreases group, 0
  {
    CssSpace(group.trail) && forall link | link in group.links :: CssLink(link)
  }

  // ---------------------------------------------------------------- supported

  /** The class names the compiler accepts. */
  ghost function Names(): iset<string> { iset name | IsName(name) }

  lemma NamesAreWords()
    ensures Vocabulary(Names())
  {
    forall name | name in Names() ensures ClassWords.SpaceFree(name) {
      forall j | 0 <= j < |name| ensures !C.IsSpace(name[j]) { assert name[j] in name; }
    }
  }

  lemma {:induction false} DenotedSimple(simples: seq<SimpleText>, d: C.Simple)
    ensures d in DenoteSimples(simples) <==> exists s :: s in simples && d == DenoteSimple(s)
    decreases |simples|
  {
    if simples != [] {
      var first, rest := simples[0], simples[1..];
      DenotedSimple(rest, d);
      assert DenoteSimples(simples) == [DenoteSimple(first)] + DenoteSimples(rest);
      if d in DenoteSimples(rest) {
        var s :| s in rest && d == DenoteSimple(s);
        assert s in simples;
      }
      if s :| s in simples && d == DenoteSimple(s) {
        assert s == first || s in rest;
      }
      assert first in simples;
    }
  }

  lemma {:induction false} DenotedLink(links: seq<LinkText>, d: C.Link)
    ensures d in DenoteLinks(links) <==> exists l :: l in links && d == DenoteLink(l)
    decreases |links|
  {
    if links != [] {
      var first, rest := links[0], links[1..];
      DenotedLink(rest, d);
      assert DenoteLinks(links) == [DenoteLink(first)] + DenoteLinks(rest);
      if d in DenoteLinks(rest) {
        var l :| l in rest && d == DenoteLink(l);
        assert l in links;
      }
      if l :| l in links && d == DenoteLink(l) {
        assert l == first || l in rest;
      }
      assert first in links;
    }
  }

  lemma {:induction false} DenotedGroup(groups: seq<GroupText>, d: C.Complex)
    ensures d in DenoteGroups(groups) <==> exists g :: g in groups && d == DenoteGroup(g)
    decreases |groups|
  {
    if groups != [] {
      var first, rest := groups[0], groups[1..];
      DenotedGroup(rest, d);
      assert DenoteGroups(groups) == [DenoteGroup(first)] + DenoteGroups(rest);
      if d in DenoteGroups(rest) {
        var g :| g in rest && d == DenoteGroup(g);
        assert g in groups;
      }
      if g :| g in groups && d == DenoteGroup(g) {
        assert g == first || g in rest;
      }
      assert first in groups;
    }
  }

  /** No :has() stands anywhere without an argument. */
  predicate SimpleFilled(s: SimpleText)
    decreases s, 0
  {
    match s
    case HasText(groups) => forall g | g in groups :: GroupFilled(g)
    case HasRaw(raw) => raw != ""
    case _ => true
  }

  predicate LinkFilled(link: LinkText)
    decreases link, 0
  {
    forall s | s in link.simples :: SimpleFilled(s)
  }

  predicate GroupFilled(group: GroupText)
    decreases group, 0
  {
    forall link | link in group.links :: LinkFilled(link)
  }

  /** Every compound's counts can be expressed by its step. */
  predicate SimpleFits(s: SimpleText)
    decreases s, 0
  {
    s.HasText? ==> forall g | g in s.groups :: GroupFits(g)
  }

  predicate LinkFits(link: LinkText)
    decreases link, 0
  {
    (forall s | s in link.simples :: SimpleFits(s)) && CountsAgree(Counts(DenoteSimples(link.simples)))
  }

  predicate GroupFits(group: GroupText)
    decreases group, 0
  {
    forall link | link in group.links :: LinkFits(link)
  }

  lemma {:induction false} CssFits(group: GroupText)
    requires CssGroup(group)
    ensures GroupFits(group) && GroupFilled(group)
    decreases group, 0
  {
    forall link | link in group.links ensures LinkFits(link) && LinkFilled(link) {
      forall s | s in link.simples ensures SimpleFits(s) && SimpleFilled(s) {
        assert CssSimple(s);
        if s.HasText? {
          forall g | g in s.groups ensures GroupFits(g) && GroupFilled(g) { CssFits(g); }
        }
      }
    }
  }

  lemma NameIsReadable(name: string)
    requires IsName(name)
    ensures R.IsName(name)
  {
  }

  /** What a simple selector denotes can be read back from its predicate unless some :has()
      is empty, and is supported when its counts are. */
  lemma {:induction false} SimpleIsRead(s: SimpleText, named: bool, depth: nat)
    requires GoodSimple(s, named, depth)
    ensures var p := PredicateOf(DenoteSimple(s)); R.PredicateNamed(p) && (R.PredicateWhole(p) <==> SimpleFilled(s))
    ensures SimpleFits(s) ==> SimpleSupported(DenoteSimple(s), Names())
    decreases s, 0
  {
    match s
    case HasText(groups) =>
      GroupsAreRead(groups, true, depth + 1);
      assert DenoteSimple(s) == C.Has(DenoteGroups(groups));
    case HasRaw(raw) => RawIsRead(raw);
    case ClassText(_) =>
    case IdText(_) =>
    case AttributeText(name) => NameIsReadable(name);
    case AttributeIsText(name, _, _, _, _) => NameIsReadable(name);
    case NthText(_) =>
  }

  lemma RawIsRead(raw: string)
    requires raw == "" || raw == "."
    ensures var p := PredicateOf(DenoteSimple(HasRaw(raw)));
      && p == X.Exists(if raw == "." then [X.Path([])] else [])
      && R.PredicateNamed(p) && (R.PredicateWhole(p) <==> raw != "") && T.ShowPredicate(p) == raw
    ensures SimpleSupported(DenoteSimple(HasRaw(raw)), Names())
  {
    var itself := C.Complex([]);
    assert PathOf(itself) == X.Path([]);
    assert PathsOf([itself]) == [PathOf(itself)] + PathsOf([itself][1..]) == [X.Path([])];
    assert DenoteSimple(HasRaw(raw)) == C.Has(if raw == "." then [itself] else []);
    assert T.ShowPaths([X.Path([])], true) == T.ShowPath(X.Path([]), true) == ".";
  }

  lemma {:induction false} LinkIsRead(link: LinkText, depth: nat)
    requires GoodLink(link, depth)
    ensures var step := StepOf(DenoteLink(link)); R.StepNamed(step) && (R.StepWhole(step) <==> LinkFilled(link))
    ensures LinkFits(link) ==> LinkSupported(DenoteLink(link), Names())
    decreases link, 0
  {
    var simples := DenoteSimples(link.simples);
    forall s | s in link.simples
      ensures DenoteSimple(s) in simples && GoodSimple(s, IsName(link.tag), depth)
      ensures var p := PredicateOf(DenoteSimple(s)); R.PredicateNamed(p) && (R.PredicateWhole(p) <==> SimpleFilled(s))
      ensures SimpleFits(s) ==> SimpleSupported(DenoteSimple(s), Names())
    {
      DenotedSimple(link.simples, DenoteSimple(s));
      SimpleIsRead(s, IsName(link.tag), depth);
    }
    StepIsRead(link);
    CountsAreNamed(link, depth);
    if LinkFits(link) {
      forall d | d in simples ensures SimpleSupported(d, Names()) { DenotedSimple(link.simples, d); }
      assert CompoundSupported(DenoteLink(link).compound, Names());
    }
  }

  lemma OthersDenoted(simples: seq<SimpleText>, p: X.Predicate)
    ensures p in Others(DenoteSimples(simples))
            <==> exists s :: s in simples && !s.NthText? && p == PredicateOf(DenoteSimple(s))
  {
    var denoted := DenoteSimples(simples);
    OthersOfEach(denoted, p);
    if p in Others(denoted) {
      var d :| d in denoted && !d.NthOfType? && p == PredicateOf(d);
      DenotedSimple(simples, d);
    }
    if s :| s in simples && !s.NthText? && p == PredicateOf(DenoteSimple(s)) {
      DenotedSimple(simples, DenoteSimple(s));
    }
  }

  lemma StepHolds(link: LinkText, p: X.Predicate)
    ensures p in StepOf(DenoteLink(link)).predicates && !p.Position? <==> p in Others(DenoteSimples(link.simples))
  {
    var simples := DenoteSimples(link.simples);
    PositionsOfEach(Counts(simples), p);
    OthersOfEach(simples, p);
    assert StepOf(DenoteLink(link)).predicates == Positions(Counts(simples)) + Others(simples);
  }

  /** The predicates of a step are those its simple selectors denote. */
  lemma StepIsRead(link: LinkText)
    requires link.tag == "" || link.tag == "*" || IsName(link.tag)
    requires forall s | s in link.simples ::
      var p := PredicateOf(DenoteSimple(s)); R.PredicateNamed(p) && (R.PredicateWhole(p) <==> SimpleFilled(s))
    ensures var step := StepOf(DenoteLink(link)); R.StepNamed(step) && (R.StepWhole(step) <==> LinkFilled(link))
  {
    var step := StepOf(DenoteLink(link));
    forall p | p in step.predicates ensures R.PredicateNamed(p) && (LinkFilled(link) ==> R.PredicateWhole(p)) {
      StepHolds(link, p);
      OthersDenoted(link.simples, p);
    }
    if s :| s in link.simples && !SimpleFilled(s) {
      StepHolds(link, PredicateOf(DenoteSimple(s)));
      OthersDenoted(link.simples, PredicateOf(DenoteSimple(s)));
    }
    if IsName(link.tag) { NameIsReadable(link.tag); }
  }

  lemma CountsAreNamed(link: LinkText, depth: nat)
    requires GoodLink(link, depth)
    ensures Counts(DenoteSimples(link.simples)) != [] ==> IsName(link.tag)
  {
    var simples := DenoteSimples(link.simples);
    if Counts(simples) != [] {
      CountsOfEach(simples, Counts(simples)[0]);
      DenotedSimple(link.simples, C.NthOfType(Counts(simples)[0]));
    }
  }

  lemma {:induction false} GroupIsRead(group: GroupText, relative: bool, depth: nat)
    requires GoodGroup(group, relative, depth)
    ensures var path := PathOf(DenoteGroup(group));
      path.steps != [] && R.PathNamed(path, relative) && (R.PathWhole(path) <==> GroupFilled(group))
    ensures GroupFits(group) ==> LinksSupported(DenoteGroup(group).links, Names())
    decreases group, 0
  {
    var links := DenoteLinks(group.links);
    forall l | l in group.links
      ensures DenoteLink(l) in links && StepOf(DenoteLink(l)) in StepsOf(links)
      ensures var step := StepOf(DenoteLink(l)); R.StepNamed(step) && (R.StepWhole(step) <==> LinkFilled(l))
      ensures LinkFits(l) ==> LinkSupported(DenoteLink(l), Names())
    {
      DenotedLink(group.links, DenoteLink(l));
      StepsOfEach(links, StepOf(DenoteLink(l)));
      LinkIsRead(l, depth);
    }
    forall step | step in StepsOf(links) ensures exists l :: l in group.links && step == StepOf(DenoteLink(l)) {
      StepsOfEach(links, step);
      var d :| d in links && step == StepOf(d);
      DenotedLink(group.links, d);
    }
    forall d | GroupFits(group) && d in links ensures LinkSupported(d, Names()) { DenotedLink(group.links, d); }
    assert links[0] == DenoteLink(group.links[0]);
  }

  lemma {:induction false} GroupsAreRead(groups: seq<GroupText>, relative: bool, depth: nat)
    requires groups != [] && forall g | g in groups :: GoodGroup(g, relative, depth)
    ensures var paths := PathsOf(DenoteGroups(groups));
      && paths != [] && (forall path | path in paths :: R.PathNamed(path, relative))
      && ((forall path | path in paths :: R.PathWhole(path)) <==> forall g | g in groups :: GroupFilled(g))
    ensures (forall g | g in groups :: GroupFits(g)) ==>
      forall c | c in DenoteGroups(groups) :: LinksSupported(c.links, Names())
    decreases groups, 0
  {
    var denoted := DenoteGroups(groups);
    forall g | g in groups
      ensures DenoteGroup(g) in denoted && PathOf(DenoteGroup(g)) in PathsOf(denoted)
      ensures var path := PathOf(DenoteGroup(g)); R.PathNamed(path, relative) && (R.PathWhole(path) <==> GroupFilled(g))
      ensures GroupFits(g) ==> LinksSupported(DenoteGroup(g).links, Names())
    {
      DenotedGroup(groups, DenoteGroup(g));
      PathsOfEach(denoted, PathOf(DenoteGroup(g)));
      GroupIsRead(g, relative, depth);
    }
    forall c | c in denoted ensures exists g :: g in groups && c == DenoteGroup(g) { DenotedGroup(groups, c); }
    forall path | path in PathsOf(denoted) ensures exists g :: g in groups && path == PathOf(DenoteGroup(g)) {
      PathsOfEach(denoted, path);
    }
    PathsLength(denoted);
    DenotedLength(groups);
  }

  // ---------------------------------------------------------------- the text written

  lemma DecimalStep(front: nat, last: nat)
    requires 0 < front && last < 10
    ensures Decimal(10 * front + last) == Decimal(front) + [Digit(last)]
  {
  }

  lemma {:induction false} DecimalValue(digits: string)
    requires IsCount(digits)
    ensures 0 < Value(digits) && Decimal(Value(digits)) == digits
    decreases |digits|
  {
    var n := |digits| - 1;
    var front, last := digits[..n], digits[n];
    assert last in digits && digits == front + [last];
    if n == 0 {
      assert Value(front) == 0;
    } else {
      CountFront(digits, n);
      DecimalValue(front);
      DecimalStep(Value(front), DigitValue(last));
    }
  }

  lemma CountFront(digits: string, n: nat)
    requires IsCount(digits) && 0 < n <= |digits|
    ensures IsCount(digits[..n])
  {
    assert forall c | c in digits[..n] :: c in digits;
  }

  lemma {:induction false} ShowTwice(a: seq<X.Predicate>, b: seq<X.Predicate>)
    ensures T.ShowPredicates(a + b) == T.ShowPredicates(a) + T.ShowPredicates(b)
    decreases |a|
  {
    if a == [] {
      assert a + b == b;
    } else {
      ShowTwice(a[1..], b);
      assert (a + b)[0] == a[0] && (a + b)[1..] == a[1..] + b;
      Assoc("[" + T.ShowPredicate(a[0]) + "]", T.ShowPredicates(a[1..]), T.ShowPredicates(b));
    }
  }

  lemma {:induction false} SimpleShown(s: SimpleText, named: bool, depth: nat)
    requires GoodSimple(s, named, depth)
    ensures T.ShowPredicate(PredicateOf(DenoteSimple(s))) == EmitSimple(s)
    decreases s, 0
  {
    match s
    case NthText(digits) => DecimalValue(digits);
    case HasText(groups) =>
      GroupsShown(groups, true, depth + 1);
      assert PredicateOf(C.Has(DenoteGroups(groups))) == X.Exists(PathsOf(DenoteGroups(groups)));
    case HasRaw(raw) => RawIsRead(raw);
    case _ =>
  }

  lemma CountsStep(s: C.Simple, rest: seq<C.Simple>)
    ensures s.NthOfType? ==> Counts([s] + rest) == [s.n] + Counts(rest) && Others([s] + rest) == Others(rest)
    ensures !s.NthOfType? ==>
      Counts([s] + rest) == Counts(rest) && Others([s] + rest) == [PredicateOf(s)] + Others(rest)
  {
    assert ([s] + rest)[1..] == rest;
  }

  lemma PositionsStep(n: nat, rest: seq<nat>)
    ensures Positions([n] + rest) == [X.Position(n)] + Positions(rest)
  {
    assert ([n] + rest)[1..] == rest;
  }

  /** Counts and other predicates, each in the order written. */
  lemma {:induction false} SimplesShown(simples: seq<SimpleText>, named: bool, depth: nat)
    requires forall s | s in simples :: GoodSimple(s, named, depth)
    ensures T.ShowPredicates(Positions(Counts(DenoteSimples(simples)))) == EmitSome(simples, true)
    ensures T.ShowPredicates(Others(DenoteSimples(simples))) == EmitSome(simples, false)
    decreases simples, 0
  {
    if simples != [] {
      var s, rest := simples[0], DenoteSimples(simples[1..]);
      assert DenoteSimples(simples) == [DenoteSimple(s)] + rest;
      SimpleShown(s, named, depth);
      SimplesShown(simples[1..], named, depth);
      CountsStep(DenoteSimple(s), rest);
      if s.NthText? {
        PositionsStep(DenoteSimple(s).n, Counts(rest));
        ShowOne(X.Position(DenoteSimple(s).n), Positions(Counts(rest)));
      } else {
        ShowOne(PredicateOf(DenoteSimple(s)), Others(rest));
      }
    }
  }

  lemma ShowOne(p: X.Predicate, ps: seq<X.Predicate>)
    ensures T.ShowPredicates([p] + ps) == "[" + T.ShowPredicate(p) + "]" + T.ShowPredicates(ps)
  {
    assert ([p] + ps)[1..] == ps;
  }

  lemma {:induction false} LinkShown(link: LinkText, depth: nat)
    requires GoodLink(link, depth)
    ensures T.ShowStep(StepOf(DenoteLink(link))) == (if link.gap.Arrow? then "/" else "//") + EmitCompound(link)
    decreases link, 0
  {
    var d := DenoteLink(link);
    SimplesShown(link.simples, IsName(link.tag), depth);
    ShowTwice(Positions(Counts(d.compound.simples)), Others(d.compound.simples));
    assert PredicatesOf(d.compound) == Positions(Counts(d.compound.simples)) + Others(d.compound.simples);
    assert T.Show(TestOf(d.compound.tag)) == TagOrAny(link.tag);
  }

  lemma {:induction false} StepsFromFront(links: seq<C.Link>)
    requires links != []
    ensures StepsOf(links) == [StepOf(links[0])] + StepsOf(links[1..])
    decreases |links|
  {
    var n := |links| - 1;
    if n > 0 {
      StepsFromFront(links[..n]);
      assert links[..n][1..] == links[1..][..n - 1] && links[1..][n - 1] == links[n];
    }
  }

  /** The compounds of a selector after the first, each with the relation its gap gives. */
  lemma {:induction false} LinksShown(links: seq<LinkText>, depth: nat, prefix: string)
    requires links != [] && forall l | l in links :: GoodLink(l, depth)
    ensures prefix + T.ShowSteps(StepsOf(DenoteLinks(links)))
            == EmitFrom(links, prefix + if links[0].gap.Arrow? then "/" else "//")
    decreases links, 0
  {
    var denoted := DenoteLinks(links);
    assert denoted[0] == DenoteLink(links[0]) && denoted[1..] == DenoteLinks(links[1..]);
    LinkShown(links[0], depth);
    StepsFromFront(denoted);
    ShowStepFirst(StepOf(denoted[0]), StepsOf(denoted[1..]));
    var relation := if links[0].gap.Arrow? then "/" else "//";
    if |links| == 1 {
      NoText(relation + EmitCompound(links[0]));
      Assoc(prefix, relation, EmitCompound(links[0]));
      NoText((prefix + relation) + EmitCompound(links[0]));
    } else {
      LinksShown(links[1..], depth, "");
      var rest := T.ShowSteps(StepsOf(denoted[1..]));
      NoText(rest);
      NoText(if links[1].gap.Arrow? then "/" else "//");
      Assoc(prefix, relation + EmitCompound(links[0]), rest);
      Assoc(prefix, relation, EmitCompound(links[0]));
    }
  }

  lemma ShowStepFirst(step: X.Step, steps: seq<X.Step>)
    ensures T.ShowSteps([step] + steps) == T.ShowStep(step) + T.ShowSteps(steps)
  {
    assert ([step] + steps)[1..] == steps;
  }

  lemma {:induction false} GroupShown(group: GroupText, relative: bool, depth: nat)
    requires GoodGroup(group, relative, depth)
    ensures T.ShowPath(PathOf(DenoteGroup(group)), relative) == EmitGroup(group, relative)
    decreases group, 0
  {
    var gap := group.links[0].gap;
    var prefix := if relative then "." else "";
    LinksShown(group.links, depth, prefix);
    assert FirstRelation(gap, relative) == prefix + if gap.Arrow? then "/" else "//";
    assert PathOf(DenoteGroup(group)) == X.Path(StepsOf(DenoteLinks(group.links)));
  }

  lemma {:induction false} GroupsShown(groups: seq<GroupText>, relative: bool, depth: nat)
    requires groups != [] && forall g | g in groups :: GoodGroup(g, relative, depth)
    ensures T.ShowPaths(PathsOf(DenoteGroups(groups)), relative) == EmitGroups(groups, relative)
    decreases groups, 0
  {
    var denoted := DenoteGroups(groups);
    assert denoted[0] == DenoteGroup(groups[0]) && denoted[1..] == DenoteGroups(groups[1..]);
    var paths := PathsOf(denoted);
    assert paths[0] == PathOf(denoted[0]) && paths[1..] == PathsOf(denoted[1..]);
    GroupShown(groups[0], relative, depth);
    if |groups| > 1 {
      GroupsShown(groups[1..], relative, depth);
      PathsLength(denoted);
      DenotedLength(groups);
    } else {
      PathsLength(denoted);
      DenotedLength(groups);
    }
  }

  lemma {:induction false} PathsLength(selectors: seq<C.Complex>)
    ensures |PathsOf(selectors)| == |selectors|
    decreases |selectors|
  {
    if selectors != [] { PathsLength(selectors[1..]); }
  }

  lemma {:induction false} DenotedLength(groups: seq<GroupText>)
    ensures |DenoteGroups(groups)| == |groups|
    decreases |groups|
  {
    if groups != [] { DenotedLength(groups[1..]); }
  }

  // ---------------------------------------------------------------- main result

  /** When the text written for an accepted selector is XPath at all: exactly when no :has()
      in it, at any depth, is empty. It then reads as the paths of what the selector denotes. */
  lemma WrittenIsXPath(text: string, relative: bool, groups: seq<GroupText>)
    requires ParseGroups(text, relative, 0) == Some(groups)
    ensures R.ReadPaths(EmitGroups(groups, relative), relative)
            == R.Reading(forall g | g in groups :: GroupFilled(g), PathsOf(DenoteGroups(groups)), "")
  {
    CssParseSound.GroupsSound(text, relative, 0);
    GroupsShown(groups, relative, 0);
    GroupsAreRead(groups, relative, 0);
    R.PathsBack(PathsOf(DenoteGroups(groups)), relative, "");
    NoText(EmitGroups(groups, relative));
  }

  /** It then selects, from a scope of any page that separates classes in XML as CSS does,
      exactly the elements that what the selector denotes matches there. An absolute path
      starts at the document, whatever the scope. */
  lemma CompilerSelectsDenoted(text: string, relative: bool, groups: seq<GroupText>, d: D.Doc, scope: nat)
    requires ParseGroups(text, relative, 0) == Some(groups)
    requires forall g | g in groups :: GroupFilled(g) && GroupFits(g)
    requires d.Valid() && Separated(d, Names()) && scope < d.Size() && (relative || scope == 0)
    ensures var xpath := R.ReadPaths(EmitGroups(groups, relative), relative);
      && xpath.Some? && xpath.value.1 == ""
      && forall e: nat | e < d.Size() ::
           e in X.SelectFrom(d, scope, xpath.value.0) <==> C.MatchesAny(d, scope, DenoteGroups(groups), e)
  {
    CssParseSound.GroupsSound(text, relative, 0);
    WrittenIsXPath(text, relative, groups);
    GroupsAreRead(groups, relative, 0);
    NamesAreWords();
    CompiledMeansTheSame(d, scope, DenoteGroups(groups), Names());
  }

  /** Text to meaning. When the compiler accepts a selector that CSS reads the same way, the
      XPath it writes selects exactly the elements the selector matches. */
  lemma CompilerIsFaithful(text: string, relative: bool, groups: seq<GroupText>, d: D.Doc, scope: nat)
    requires ParseGroups(text, relative, 0) == Some(groups) && forall g | g in groups :: CssGroup(g)
    requires d.Valid() && Separated(d, Names()) && scope < d.Size() && (relative || scope == 0)
    ensures WriteGroups(groups, "") == text
    ensures var xpath := R.ReadPaths(EmitGroups(groups, relative), relative);
      && xpath.Some? && xpath.value.1 == ""
      && forall e: nat | e < d.Size() ::
           e in X.SelectFrom(d, scope, xpath.value.0) <==> C.MatchesAny(d, scope, DenoteGroups(groups), e)
  {
    CssParseSound.GroupsSound(text, relative, 0);
    forall g | g in groups ensures GroupFits(g) && GroupFilled(g) { CssFits(g); }
    CompilerSelectsDenoted(text, relative, groups, d, scope);
  }

  // ---------------------------------------------------------------- where CSS reads otherwise

  function TwoLinks(a: string, space: string, b: string): GroupText {
    GroupText([LinkText(Space(""), a, []), LinkText(Space(space), b, [])], "")
  }

  lemma LinksInFront(first: LinkText, second: LinkText)
    ensures WriteLinks([first, second], "") == WriteLink(first, WriteLink(second, ""))
    ensures EmitFrom([first, second], "//")
      == "//" + EmitCompound(first) + EmitFrom([second], if second.gap.Arrow? then "/" else "//")
  {
    assert [first, second][1..] == [second] && [second][1..] == [];
    assert WriteLinks([second], "") == WriteLink(second, WriteLinks([], ""));
  }

  lemma NameLink(space: string, name: string, tail: string)
    requires name != ""
    ensures WriteLink(LinkText(Space(space), name, []), tail) == space + (name + tail)
    ensures EmitCompound(LinkText(Space(space), name, [])) == name
    ensures EmitFrom([LinkText(Space(space), name, [])], "//") == "//" + name
  {
    NoText(name);
    NoText("//" + name);
    NoText("");
  }

  /** A selector of two bare names with white space between, written and compiled. */
  lemma TwoNames(a: string, space: string, b: string)
    requires IsName(a) && IsName(b) && space != "" && AllSpace(space)
    ensures var group := TwoLinks(a, space, b);
      && GoodGroups([group], false, 0)
      && WriteGroups([group], "") == a + (space + b)
      && EmitGroups([group], false) == "//" + a + ("//" + b)
  {
    var first, second := LinkText(Space(""), a, []), LinkText(Space(space), b, []);
    var group := TwoLinks(a, space, b);
    assert GoodLink(first, 0) && GoodLink(second, 0);
    NameLink("", a, space + b);
    NameLink(space, b, "");
    NoText(b);
    NoText(a + (space + b));
    LinksInFront(first, second);
    NoText("");
    assert WriteGroup(group, "") == WriteLinks(group.links, "");
    assert WriteGroups([group], "") == WriteGroup(group, "");
    assert EmitGroup(group, false) == EmitFrom(group.links, "//");
  }

  lemma NoEscapes(a: string, space: string, b: string)
    requires IsName(a) && IsName(b) && AllSpace(space)
    ensures '\\' !in a + (space + b)
  {
  }

  /** Around a character that is not white space in CSS stands some word that holds it. */
  lemma WordAround(text: string, k: nat) returns (word: string)
    requires k < |text| && !C.IsSpace(text[k])
    ensures text[k] in word && ClassWords.SpaceFree(word) && C.HasWord(text, word, C.IsSpace)
  {
    var i, j := k, k + 1;
    while 0 < i && !C.IsSpace(text[i - 1])
      invariant 0 <= i <= k && forall n | i <= n <= k :: !C.IsSpace(text[n])
    {
      i := i - 1;
    }
    while j < |text| && !C.IsSpace(text[j])
      invariant k < j <= |text| && forall n | i <= n < j :: !C.IsSpace(text[n])
    {
      j := j + 1;
    }
    word := text[i..j];
    assert word[k - i] == text[k];
    assert forall n | 0 <= n < |word| :: word[n] == text[i + n];
    assert C.WordAt(text, word, C.IsSpace, i);
  }

  /** The names and white space of such a selector, character by character. */
  lemma TwoNamesAt(a: string, space: string, b: string)
    requires IsName(a) && IsName(b)
    ensures var text, m, n := a + (space + b), |a|, |a| + |space|;
      && (forall k | 0 <= k < m :: text[k] == a[k] && !C.IsSpace(text[k]))
      && (forall k | m <= k < n :: text[k] == space[k - m])
      && (forall k | n <= k < |text| :: text[k] == b[k - n] && !C.IsSpace(text[k]))
      && text[..m] == a && text[n..] == b && |text| == n + |b|
  {
    forall k | 0 <= k < |a| ensures !C.IsSpace(a[k]) { assert a[k] in a; }
    forall k | 0 <= k < |b| ensures !C.IsSpace(b[k]) { assert b[k] in b; }
  }

  /** With CSS white space between them, the two names are the words. */
  lemma TwoWords(a: string, space: string, b: string, word: string)
    requires IsName(a) && IsName(b) && space != "" && CssSpace(space) && ClassWords.SpaceFree(word)
    ensures C.HasWord(a + (space + b), word, C.IsSpace) <==> word == a || word == b
  {
    var text, m, n := a + (space + b), |a|, |a| + |space|;
    TwoNamesAt(a, space, b);
    assert text[n..|text|] == text[n..];
    if word == a {
      assert space[0] in space;
      assert C.WordAt(text, word, C.IsSpace, 0);
    }
    if word == b {
      assert space[|space| - 1] in space;
      assert C.WordAt(text, word, C.IsSpace, n);
    }
    if i :| C.WordAt(text, word, C.IsSpace, i) { WordBetween(text, m, n, word, i); }
  }

  /** In a text with white space exactly between two places, a word is one of the sides. */
  lemma WordBetween(text: string, m: nat, n: nat, word: string, i: nat)
    requires m < n <= |text| && forall k | 0 <= k < |text| :: C.IsSpace(text[k]) <==> m <= k < n
    requires ClassWords.SpaceFree(word) && C.WordAt(text, word, C.IsSpace, i)
    ensures word == text[..m] || word == text[n..|text|]
  {
    var end := i + |word|;
    forall k | i <= k < end ensures !C.IsSpace(text[k]) { assert text[i..end][k - i] == text[k]; }
    assert !C.IsSpace(text[i]) && C.IsSpace(text[m]) && C.IsSpace(text[n - 1]);
    assert !(i <= m < end) && !(i <= n - 1 < end) && !(0 < i < m) && !(n < i) && !(0 < end < m) && !(n < end < |text|);
    assert (i == 0 && end == m) || (i == n && end == |text|);
  }

  /** With any other white space between them, there is another word. */
  lemma OtherWord(a: string, space: string, b: string) returns (word: string)
    requires IsName(a) && IsName(b) && AllSpace(space) && !CssSpace(space)
    ensures ClassWords.SpaceFree(word) && C.HasWord(a + (space + b), word, C.IsSpace) && word != a && word != b
  {
    var c :| c in space && !C.IsSpace(c);
    var k :| 0 <= k < |space| && space[k] == c;
    TwoNamesAt(a, space, b);
    word := WordAround(a + (space + b), |a| + k);
    assert c in word && !IsNameChar(c);
  }

  /** JavaScript's white space, which the compiler splits at, is wider than CSS's. Two names
      around any of it are always compiled as a descendant step; they are what CSS reads
      exactly when all of it is CSS white space. A no-break space makes one identifier. */
  lemma GapsReadAlike(a: string, space: string, b: string)
    requires IsName(a) && IsName(b) && space != "" && AllSpace(space)
    ensures var text := a + (space + b);
      && ParseGroups(text, false, 0).Some?
      && EmitGroups(ParseGroups(text, false, 0).value, false) == "//" + a + ("//" + b)
      && (CssSpace(space) <==>
          forall word | ClassWords.SpaceFree(word) :: C.HasWord(text, word, C.IsSpace) <==> word == a || word == b)
  {
    var text := a + (space + b);
    TwoNames(a, space, b);
    NoEscapes(a, space, b);
    CssParseComplete.AcceptsExactlyTheGrammar(text, false, [TwoLinks(a, space, b)]);
    if CssSpace(space) {
      forall word | ClassWords.SpaceFree(word)
        ensures C.HasWord(text, word, C.IsSpace) <==> word == a || word == b
      {
        TwoWords(a, space, b, word);
      }
    } else {
      var word := OtherWord(a, space, b);
    }
  }

  lemma ItselfIsFound(d: D.Doc, e: nat)
    requires d.Valid() && 0 < e < d.Size() && d.nodes[e].Element?
    ensures C.SimpleMatches(d, e, DenoteSimple(HasRaw(".")))
  {
    var itself := C.Complex([]);
    assert DenoteSimple(HasRaw(".")) == C.Has([itself]);
    assert itself in [itself] && d.Contains(e) && C.Matches(d, e, itself.links, e);
  }

  /** CSS rejects :has(.). It is compiled, to the predicate of the element itself, so that the
      compound selects what it would without it. */
  lemma DotHasIsIgnored(d: D.Doc, e: nat, link: LinkText, rest: seq<SimpleText>)
    requires d.Valid() && e < d.Size()
    requires forall s :: s in link.simples <==> s == HasRaw(".") || s in rest
    ensures C.CompoundMatches(d, e, DenoteLink(link).compound)
            <==> C.CompoundMatches(d, e, DenoteLink(link.(simples := rest)).compound)
  {
    var with, without := DenoteLink(link).compound, DenoteLink(link.(simples := rest)).compound;
    if 0 < e && C.TagMatches(d, e, with.tag) {
      ItselfIsFound(d, e);
      forall s | s in without.simples ensures s in with.simples {
        DenotedSimple(rest, s);
        DenotedSimple(link.simples, s);
      }
      forall s | s in with.simples && s !in without.simples ensures C.SimpleMatches(d, e, s) {
        DenotedSimple(link.simples, s);
        var t :| t in link.simples && s == DenoteSimple(t);
        if t in rest { DenotedSimple(rest, s); }
      }
    }
  }
}
