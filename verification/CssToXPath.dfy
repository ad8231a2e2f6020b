/** The translation the selector picker performs (internal/web/assets/selector-frame.js)
    from CSS to XPath, on abstract syntax, and the proof that it keeps the meaning. */
module CssToXPath {
  import opened Document
  import opened Wrappers
  import C = Css
  import X = XPath
  import ClassWords

  function TestOf(tag: C.Tag): X.Test {
    match tag
    case Any => X.Star
    case Named(name) => X.Tag(name)
  }

  function AxisOf(combinator: C.Combinator): X.Axis {
    match combinator
    case Descendant => X.Deep
    case Child => X.Direct
  }

  function PredicateOf(s: C.Simple): X.Predicate
    decreases s, 0
  {
    match s
    case Class(name) => X.ClassContains(name)
    case Id(value) => X.AttributeEquals("id", value)
    case Attribute(name) => X.HasAttribute(name)
    case AttributeIs(name, value) => X.AttributeEquals(name, value)
    case NthOfType(n) => X.Position(n)
    case Has(selectors) => X.Exists(PathsOf(selectors))
  }

  /** The counts of a compound's :nth-of-type, in the order written. */
  function Counts(simples: seq<C.Simple>): seq<nat> {
    if simples == [] then []
    else (if simples[0].NthOfType? then [simples[0].n] else []) + Counts(simples[1..])
  }

  function Positions(counts: seq<nat>): seq<X.Predicate> {
    if counts == [] then [] else [X.Position(counts[0])] + Positions(counts[1..])
  }

  function Others(simples: seq<C.Simple>): seq<X.Predicate>
    decreases simples, 0
  {
    if simples == [] then []
    else (if simples[0].NthOfType? then [] else [PredicateOf(simples[0])]) + Others(simples[1..])
  }

  /** Position predicates go first, where they number the siblings of one type. */
  function StepOf(link: C.Link): X.Step
    decreases link, 0
  {
    X.Step(AxisOf(link.combinator), TestOf(link.compound.tag), PredicatesOf(link.compound))
  }

  function PredicatesOf(compound: C.Compound): seq<X.Predicate>
    decreases compound, 0
  {
    Positions(Counts(compound.simples)) + Others(compound.simples)
  }

  function StepsOf(links: seq<C.Link>): (steps: seq<X.Step>)
    ensures |steps| == |links|
    decreases links, 0
  {
    if links == [] then [] else StepsOf(links[..|links| - 1]) + [StepOf(links[|links| - 1])]
  }

  function PathOf(c: C.Complex): X.Path
    decreases c, 0
  {
    X.Path(StepsOf(c.links))
  }

  function PathsOf(selectors: seq<C.Complex>): seq<X.Path>
    decreases selectors, 0
  {
    if selectors == [] then [] else [PathOf(selectors[0])] + PathsOf(selectors[1..])
  }

  // ---------------------------------------------------------------- what is supported

  /** When position predicates one after another still mean what the CSS counts do. */
  predicate CountsAgree(counts: seq<nat>) {
    || |counts| <= 1
    || (forall k | 0 <= k < |counts| :: counts[k] == 1)
    || ((exists k | 0 <= k < |counts| :: counts[k] != counts[0]) && exists k | 1 <= k < |counts| :: counts[k] != 1)
  }

  /** Selectors whose class names come from a vocabulary. */
  ghost predicate SimpleSupported(s: C.Simple, words: iset<string>)
    decreases s, 0
  {
    match s
    case Class(name) => name in words
    case Has(selectors) => forall c | c in selectors :: LinksSupported(c.links, words)
    case _ => true
  }

  ghost predicate CompoundSupported(c: C.Compound, words: iset<string>)
    decreases c, 0
  {
    && (forall s | s in c.simples :: SimpleSupported(s, words))
    && (Counts(c.simples) != [] ==> c.tag.Named?)
    && CountsAgree(Counts(c.simples))
  }

  ghost predicate LinkSupported(link: C.Link, words: iset<string>)
    decreases link, 0
  {
    CompoundSupported(link.compound, words)
  }

  ghost predicate LinksSupported(links: seq<C.Link>, words: iset<string>)
    decreases links, 0
  {
    forall link | link in links :: LinkSupported(link, words)
  }

  /** Class names hold none of the white space that separates them. */
  ghost predicate Vocabulary(words: iset<string>) { forall w :: w in words ==> ClassWords.SpaceFree(w) }

  /** On this page XML's white space separates these classes wherever CSS's does. */
  ghost predicate Separated(d: Doc, words: iset<string>) {
    forall i: nat, w {:trigger d.Contains(i), w in words} | d.Contains(i) && w in words ::
      ClassWords.FoundInBoth(d.Attr(i, "class"), w)
  }

  // ---------------------------------------------------------------- lists of candidates

  lemma {:induction false} ChildrenGrow(d: Doc, p: nat, test: X.Test, m: nat, n: nat)
    requires d.Valid() && m <= n <= d.Size()
    ensures X.Children(d, p, test, m) <= X.Children(d, p, test, n)
    decreases n
  {
    if m < n {
      ChildrenGrow(d, p, test, m, n - 1);
      ChildrenStep(d, p, test, n);
    }
  }

  lemma ChildrenStep(d: Doc, p: nat, test: X.Test, n: nat)
    requires d.Valid() && 0 < n <= d.Size()
    ensures X.Children(d, p, test, n - 1) <= X.Children(d, p, test, n)
  {
  }

  ghost function Typed(d: Doc, p: nat, test: X.Test, n: nat): set<nat>
    requires d.Valid() && n <= d.Size()
  {
    set j: nat | 0 < j < n && d.Parent(j) == p && X.TestHolds(d, j, test)
  }

  lemma TypedStep(d: Doc, p: nat, test: X.Test, n: nat)
    requires d.Valid() && 1 < n <= d.Size()
    ensures Typed(d, p, test, n) == Typed(d, p, test, n - 1)
              + if d.Parent(n - 1) == p && X.TestHolds(d, n - 1, test) then {n - 1} else {}
  {
  }

  lemma {:induction false} ChildrenCount(d: Doc, p: nat, test: X.Test, n: nat)
    requires d.Valid() && n <= d.Size()
    ensures |X.Children(d, p, test, n)| == |Typed(d, p, test, n)|
    decreases n
  {
    if n <= 1 {
      assert Typed(d, p, test, n) == {};
    } else {
      ChildrenCount(d, p, test, n - 1);
      TypedStep(d, p, test, n);
    }
  }

  lemma IndexCounts(d: Doc, e: nat)
    requires d.Valid() && 0 < e < d.Size() && d.nodes[e].Element?
    ensures C.IndexOfType(d, e) == 1 + |X.Children(d, d.Parent(e), X.Tag(d.nodes[e].tag), e)|
  {
    var p, test := d.Parent(e), X.Tag(d.nodes[e].tag);
    ChildrenCount(d, p, test, e);
    assert Typed(d, p, test, e)
        == (set j: nat | 0 < j < e && d.Parent(j) == d.Parent(e) && C.TagMatches(d, j, C.Named(d.nodes[e].tag)));
  }

  /** An element's place among the candidates is its index among siblings of its type. */
  lemma IndexIsPosition(d: Doc, e: nat)
    requires d.Valid() && 0 < e < d.Size() && d.nodes[e].Element?
    ensures var list := X.Children(d, d.Parent(e), X.Tag(d.nodes[e].tag), d.Size());
      C.IndexOfType(d, e) <= |list| && list[C.IndexOfType(d, e) - 1] == e
  {
    var p, test := d.Parent(e), X.Tag(d.nodes[e].tag);
    IndexCounts(d, e);
    var before, upto := X.Children(d, p, test, e), X.Children(d, p, test, e + 1);
    assert upto == before + [e];
    ChildrenGrow(d, p, test, e + 1, d.Size());
    assert upto[|before|] == e;
  }

  lemma PositionIsIndex(d: Doc, e: nat, k: nat)
    requires d.Valid() && 0 < e < d.Size() && d.nodes[e].Element?
    ensures var list := X.Children(d, d.Parent(e), X.Tag(d.nodes[e].tag), d.Size());
      0 < k <= |list| && list[k - 1] == e <==> k == C.IndexOfType(d, e)
  {
    var p, test := d.Parent(e), X.Tag(d.nodes[e].tag);
    var list := X.Children(d, p, test, d.Size());
    IndexIsPosition(d, e);
    if 0 < k <= |list| && list[k - 1] == e {
      Increasing(d, p, test, d.Size(), k - 1, C.IndexOfType(d, e) - 1);
    }
  }

  lemma {:induction false} Increasing(d: Doc, p: nat, test: X.Test, n: nat, a: nat, b: nat)
    requires d.Valid() && n <= d.Size()
    requires a < |X.Children(d, p, test, n)| && b < |X.Children(d, p, test, n)|
    requires X.Children(d, p, test, n)[a] == X.Children(d, p, test, n)[b]
    ensures a == b
    decreases n
  {
    var list, before := X.Children(d, p, test, n), X.Children(d, p, test, n - 1);
    assert forall c | 0 <= c < |before| :: before[c] in before && before[c] < n - 1;
    if a < |before| && b < |before| {
      Increasing(d, p, test, n - 1, a, b);
    }
  }

  lemma {:induction false} FilterPosition(d: Doc, nodes: seq<nat>, from: nat, n: nat)
    requires d.Valid() && X.Within(d, nodes)
    ensures X.Filter(d, nodes, from, X.Position(n)) == if from <= n < from + |nodes| then [nodes[n - from]] else []
    decreases |nodes|
  {
    if nodes != [] { FilterPosition(d, nodes[1..], from + 1, n); }
  }

  lemma {:induction false} FilterOther(d: Doc, nodes: seq<nat>, from: nat, p: X.Predicate, e: nat)
    requires d.Valid() && X.Within(d, nodes) && !p.Position? && e < d.Size()
    ensures e in X.Filter(d, nodes, from, p) <==> e in nodes && X.Holds(d, e, 0, p)
    decreases |nodes|
  {
    if nodes != [] {
      FilterOther(d, nodes[1..], from + 1, p, e);
      assert e in nodes <==> e == nodes[0] || e in nodes[1..];
      assert X.Holds(d, nodes[0], from, p) == X.Holds(d, nodes[0], 0, p);
    }
  }

  lemma {:induction false} FilterInTurn(d: Doc, nodes: seq<nat>, a: seq<X.Predicate>, b: seq<X.Predicate>)
    requires d.Valid() && X.Within(d, nodes)
    ensures X.FilterAll(d, nodes, a + b) == X.FilterAll(d, X.FilterAll(d, nodes, a), b)
    decreases |a|
  {
    if a == [] {
      assert a + b == b;
    } else {
      assert (a + b)[0] == a[0] && (a + b)[1..] == a[1..] + b;
      FilterInTurn(d, X.Filter(d, nodes, 1, a[0]), a[1..], b);
    }
  }

  lemma {:induction false} FilterOthers(d: Doc, nodes: seq<nat>, ps: seq<X.Predicate>, e: nat)
    requires d.Valid() && X.Within(d, nodes) && e < d.Size()
    requires forall p | p in ps :: !p.Position?
    ensures e in X.FilterAll(d, nodes, ps) <==> e in nodes && forall p | p in ps :: X.Holds(d, e, 0, p)
    decreases |ps|
  {
    if ps != [] {
      FilterOther(d, nodes, 1, ps[0], e);
      FilterOthers(d, X.Filter(d, nodes, 1, ps[0]), ps[1..], e);
      assert forall p :: p in ps <==> p == ps[0] || p in ps[1..];
    }
  }

  /** A list with one candidate keeps it through counts that are all 1. */
  lemma {:induction false} PositionsOfOne(d: Doc, nodes: seq<nat>, counts: seq<nat>)
    requires d.Valid() && X.Within(d, nodes) && |nodes| <= 1
    ensures X.FilterAll(d, nodes, Positions(counts))
            == if Ones(counts, 0) then nodes else []
    decreases |counts|
  {
    if counts != [] {
      FilterPosition(d, nodes, 1, counts[0]);
      PositionsOfOne(d, X.Filter(d, nodes, 1, X.Position(counts[0])), counts[1..]);
      assert counts == [counts[0]] + counts[1..];
    }
  }

  lemma PositionsUnfold(d: Doc, nodes: seq<nat>, counts: seq<nat>)
    requires d.Valid() && X.Within(d, nodes) && counts != []
    ensures var first := if 1 <= counts[0] <= |nodes| then [nodes[counts[0] - 1]] else [];
      X.Within(d, first)
      && X.FilterAll(d, nodes, Positions(counts)) == X.FilterAll(d, first, Positions(counts[1..]))
  {
    FilterPosition(d, nodes, 1, counts[0]);
  }

  ghost predicate Ones(counts: seq<nat>, from: nat) { forall k | from <= k < |counts| :: counts[k] == 1 }

  lemma OnesAfterFirst(counts: seq<nat>)
    requires counts != []
    ensures Ones(counts[1..], 0) <==> Ones(counts, 1)
  {
    assert forall k | 1 <= k < |counts| :: counts[k] == counts[1..][k - 1];
  }

  /** What the position predicates of one step select. */
  lemma PositionsSelect(d: Doc, e: nat, counts: seq<nat>)
    requires d.Valid() && 0 < e < d.Size() && d.nodes[e].Element? && counts != []
    ensures var list := X.Children(d, d.Parent(e), X.Tag(d.nodes[e].tag), d.Size());
      e in X.FilterAll(d, list, Positions(counts)) <==> C.IndexOfType(d, e) == counts[0] && Ones(counts, 1)
  {
    var list := X.Children(d, d.Parent(e), X.Tag(d.nodes[e].tag), d.Size());
    var first := if 1 <= counts[0] <= |list| then [list[counts[0] - 1]] else [];
    PositionsUnfold(d, list, counts);
    PositionsOfOne(d, first, counts[1..]);
    PositionIsIndex(d, e, counts[0]);
    OnesAfterFirst(counts);
  }

  lemma {:induction false} FilterShrinks(d: Doc, nodes: seq<nat>, from: nat, p: X.Predicate, e: nat)
    requires d.Valid() && X.Within(d, nodes) && e in X.Filter(d, nodes, from, p)
    ensures e in nodes
    decreases |nodes|
  {
    if e != nodes[0] { FilterShrinks(d, nodes[1..], from + 1, p, e); }
  }

  lemma {:induction false} FilterAllShrinks(d: Doc, nodes: seq<nat>, ps: seq<X.Predicate>, e: nat)
    requires d.Valid() && X.Within(d, nodes) && e in X.FilterAll(d, nodes, ps)
    ensures e in nodes
    decreases |ps|
  {
    if ps != [] {
      FilterAllShrinks(d, X.Filter(d, nodes, 1, ps[0]), ps[1..], e);
      FilterShrinks(d, nodes, 1, ps[0], e);
    }
  }

  // ---------------------------------------------------------------- paths

  lemma {:induction false} EvaluateSnoc(d: Doc, context: set<nat>, steps: seq<X.Step>, last: X.Step, e: nat)
    requires d.Valid() && e < d.Size() && forall c | c in context :: c < d.Size()
    ensures e in X.Evaluate(d, context, steps + [last]) <==> X.Reached(d, X.Evaluate(d, context, steps), last, e)
    decreases |steps|
  {
    var all := steps + [last];
    if steps == [] {
      assert all == [last] && all[1..] == [];
    } else {
      assert all[0] == steps[0] && all[1..] == steps[1..] + [last];
      var next := set i: nat | i < d.Size() && X.Reached(d, context, steps[0], i);
      EvaluateSnoc(d, next, steps[1..], last, e);
    }
  }

  lemma {:induction false} PathsOfEach(selectors: seq<C.Complex>, path: X.Path)
    ensures path in PathsOf(selectors) <==> exists c :: c in selectors && path == PathOf(c)
    decreases |selectors|
  {
    if selectors != [] {
      PathsOfEach(selectors[1..], path);
      assert PathsOf(selectors) == [PathOf(selectors[0])] + PathsOf(selectors[1..]);
      assert forall c :: c in selectors <==> c == selectors[0] || c in selectors[1..];
    }
  }

  lemma {:induction false} StepsOfEach(links: seq<C.Link>, step: X.Step)
    ensures step in StepsOf(links) <==> exists l :: l in links && step == StepOf(l)
    decreases |links|
  {
    if links != [] {
      var n := |links| - 1;
      StepsOfEach(links[..n], step);
      assert StepsOf(links) == StepsOf(links[..n]) + [StepOf(links[n])];
      assert forall l :: l in links <==> l == links[n] || l in links[..n];
    }
  }

  lemma {:induction false} OthersOfEach(simples: seq<C.Simple>, p: X.Predicate)
    ensures p in Others(simples) <==> exists s :: s in simples && !s.NthOfType? && p == PredicateOf(s)
    ensures p in Others(simples) ==> !p.Position?
    decreases |simples|
  {
    if simples != [] {
      OthersOfEach(simples[1..], p);
      assert forall s :: s in simples <==> s == simples[0] || s in simples[1..];
    }
  }

  lemma {:induction false} PositionsOfEach(counts: seq<nat>, p: X.Predicate)
    ensures p in Positions(counts) ==> p.Position?
    decreases |counts|
  {
    if counts != [] { PositionsOfEach(counts[1..], p); }
  }

  lemma {:induction false} CountsOfEach(simples: seq<C.Simple>, n: nat)
    ensures n in Counts(simples) <==> C.NthOfType(n) in simples
    decreases |simples|
  {
    if simples != [] {
      CountsOfEach(simples[1..], n);
      assert forall s :: s in simples <==> s == simples[0] || s in simples[1..];
    }
  }

  // ---------------------------------------------------------------- the meaning is kept

  /** What XPath selects CSS matches, and on separated pages the converse. */
  ghost predicate Agree(selects: bool, matches: bool, separated: bool) {
    (selects ==> matches) && (separated && matches ==> selects)
  }

  lemma {:induction false} SimpleAgrees(d: Doc, e: nat, s: C.Simple, words: iset<string>)
    requires Vocabulary(words) && d.Valid() && 0 < e < d.Size() && d.nodes[e].Element?
    requires SimpleSupported(s, words) && !s.NthOfType?
    ensures Agree(X.Holds(d, e, 0, PredicateOf(s)), C.SimpleMatches(d, e, s), Separated(d, words))
    decreases s, 0
  {
    match s
    case Class(name) =>
      ClassWords.ClassTestAgrees(d.Attr(e, "class"), name);
      if C.HasWord(d.Attr(e, "class"), name, X.IsSpace) { ClassWords.XmlWordIsClass(d.Attr(e, "class"), name); }
      assert d.Contains(e);
    case Has(selectors) =>
      HasAgrees(d, e, selectors, words);
      assert PredicateOf(s) == X.Exists(PathsOf(selectors));
    case _ =>
  }

  lemma {:induction false} HasAgrees(d: Doc, e: nat, selectors: seq<C.Complex>, words: iset<string>)
    requires Vocabulary(words) && d.Valid() && 0 < e < d.Size() && d.nodes[e].Element?
    requires forall c | c in selectors :: LinksSupported(c.links, words)
    ensures Agree(X.Holds(d, e, 0, X.Exists(PathsOf(selectors))), C.SimpleMatches(d, e, C.Has(selectors)),
                  Separated(d, words))
    decreases selectors, 0
  {
    if path, i: nat :| path in PathsOf(selectors) && d.Contains(i) && i in X.Evaluate(d, {e}, path.steps) {
      PathsOfEach(selectors, path);
      var c :| c in selectors && path == PathOf(c);
      PathAgrees(d, e, c.links, i, words);
    }
    if c, i: nat :| c in selectors && d.Contains(i) && Separated(d, words) && C.Matches(d, e, c.links, i) {
      PathsOfEach(selectors, PathOf(c));
      PathAgrees(d, e, c.links, i, words);
      assert i in X.Evaluate(d, {e}, PathOf(c).steps);
    }
  }

  /** The counts of one compound and the position predicates of its step. */
  lemma CountsAgreeSelect(d: Doc, e: nat, compound: C.Compound, words: iset<string>)
    requires Vocabulary(words) && d.Valid() && 0 < e < d.Size() && C.TagMatches(d, e, compound.tag)
    requires CompoundSupported(compound, words)
    ensures var list := X.Children(d, d.Parent(e), TestOf(compound.tag), d.Size());
      e in X.FilterAll(d, list, Positions(Counts(compound.simples)))
      <==> forall n :: C.NthOfType(n) in compound.simples ==> C.IndexOfType(d, e) == n
  {
    var counts := Counts(compound.simples);
    forall n ensures n in counts <==> C.NthOfType(n) in compound.simples { CountsOfEach(compound.simples, n); }
    if counts != [] {
      PositionsSelect(d, e, counts);
      assert forall k | 0 <= k < |counts| :: counts[k] in counts;
    }
  }

  lemma {:induction false} CompoundAgrees(d: Doc, e: nat, compound: C.Compound, words: iset<string>)
    requires Vocabulary(words) && d.Valid() && 0 < e < d.Size() && CompoundSupported(compound, words)
    ensures Agree(e in X.FilterAll(d, X.Children(d, d.Parent(e), TestOf(compound.tag), d.Size()),
                                   PredicatesOf(compound)),
                  C.CompoundMatches(d, e, compound), Separated(d, words))
    decreases compound, 0
  {
    var list := X.Children(d, d.Parent(e), TestOf(compound.tag), d.Size());
    var positions, others := Positions(Counts(compound.simples)), Others(compound.simples);
    assert PredicatesOf(compound) == positions + others;
    if !C.TagMatches(d, e, compound.tag) {
      if e in X.FilterAll(d, list, PredicatesOf(compound)) { FilterAllShrinks(d, list, PredicatesOf(compound), e); }
    } else {
      FilterInTurn(d, list, positions, others);
      forall p | p in others ensures !p.Position? { OthersOfEach(compound.simples, p); }
      FilterOthers(d, X.FilterAll(d, list, positions), others, e);
      CountsAgreeSelect(d, e, compound, words);
      forall s | s in compound.simples && !s.NthOfType?
        ensures PredicateOf(s) in others
        ensures Agree(X.Holds(d, e, 0, PredicateOf(s)), C.SimpleMatches(d, e, s), Separated(d, words))
      {
        OthersOfEach(compound.simples, PredicateOf(s));
        SimpleAgrees(d, e, s, words);
      }
      forall n | C.NthOfType(n) in compound.simples
        ensures C.SimpleMatches(d, e, C.NthOfType(n)) <==> C.IndexOfType(d, e) == n
      {
      }
      forall p | p in others && Separated(d, words) && C.CompoundMatches(d, e, compound) ensures X.Holds(d, e, 0, p) {
        OthersOfEach(compound.simples, p);
        var s :| s in compound.simples && !s.NthOfType? && p == PredicateOf(s);
        assert C.SimpleMatches(d, e, s);
      }
    }
  }

  lemma {:induction false} StepAgrees(d: Doc, node: nat, link: C.Link, e: nat, words: iset<string>)
    requires Vocabulary(words) && d.Valid() && node < d.Size() && e < d.Size() && LinkSupported(link, words)
    ensures Agree(X.StepSelects(d, node, StepOf(link), e),
                  0 < e && d.Parent(e) in X.Parents(d, node, AxisOf(link.combinator)) && C.LinkMatches(d, e, link),
                  Separated(d, words))
    decreases link, 0
  {
    var step := StepOf(link);
    if p :| p in X.Parents(d, node, step.axis)
            && e in X.FilterAll(d, X.Children(d, p, step.test, d.Size()), step.predicates) {
      FilterAllShrinks(d, X.Children(d, p, step.test, d.Size()), step.predicates, e);
      assert 0 < e && p == d.Parent(e);
    }
    if 0 < e { CompoundAgrees(d, e, link.compound, words); }
  }

  /** A compiled path selects from a scope what the CSS selector matches there. */
  lemma {:induction false} PathAgrees(d: Doc, scope: nat, links: seq<C.Link>, e: nat, words: iset<string>)
    requires Vocabulary(words) && d.Valid() && scope < d.Size() && e < d.Size() && LinksSupported(links, words)
    ensures Agree(e in X.Evaluate(d, {scope}, StepsOf(links)), C.Matches(d, scope, links, e), Separated(d, words))
    decreases links, 0
  {
    if links != [] {
      var n := |links| - 1;
      var front, last := links[..n], links[n];
      EvaluateSnoc(d, {scope}, StepsOf(front), StepOf(last), e);
      if node :| node in X.Evaluate(d, {scope}, StepsOf(front)) && X.StepSelects(d, node, StepOf(last), e) {
        PathAgrees(d, scope, front, node, words);
        StepAgrees(d, node, last, e, words);
        assert last.combinator.Descendant? ==> node in d.Ancestors(e);
      }
      if C.Matches(d, scope, links, e) && Separated(d, words) {
        var node := d.Parent(e);
        if last.combinator.Descendant? { node :| node in d.Ancestors(e) && C.Matches(d, scope, front, node); }
        PathAgrees(d, scope, front, node, words);
        StepAgrees(d, node, last, e, words);
        assert X.Reached(d, X.Evaluate(d, {scope}, StepsOf(front)), StepOf(last), e);
      }
    }
  }

  /** The main result. On any page, from any scope, the compiled union of paths selects
      only elements the CSS selectors match; where the page separates their classes in both
      languages it selects exactly those. */
  lemma CompiledMeansTheSame(d: Doc, scope: nat, selectors: seq<C.Complex>, words: iset<string>)
    requires Vocabulary(words) && d.Valid() && scope < d.Size()
    requires forall c | c in selectors :: LinksSupported(c.links, words)
    ensures forall e: nat | e in X.SelectFrom(d, scope, PathsOf(selectors)) :: C.MatchesAny(d, scope, selectors, e)
    ensures Separated(d, words) ==> forall e: nat | e < d.Size() ::
      e in X.SelectFrom(d, scope, PathsOf(selectors)) <==> C.MatchesAny(d, scope, selectors, e)
    ensures Separated(d, words) && scope == 0 ==> X.SelectFrom(d, 0, PathsOf(selectors)) == C.Select(d, selectors)
  {
    forall e: nat | e < d.Size()
      ensures Agree(X.SelectedByAny(d, scope, PathsOf(selectors), e), C.MatchesAny(d, scope, selectors, e),
                    Separated(d, words))
    {
      if path :| path in PathsOf(selectors) && e in X.Evaluate(d, {scope}, path.steps) {
        PathsOfEach(selectors, path);
        var c :| c in selectors && path == PathOf(c);
        PathAgrees(d, scope, c.links, e, words);
      }
      if c :| c in selectors && C.Matches(d, scope, c.links, e) {
        PathsOfEach(selectors, PathOf(c));
        PathAgrees(d, scope, c.links, e, words);
        assert Separated(d, words) ==> e in X.Evaluate(d, {scope}, PathOf(c).steps);
      }
    }
  }

  // ---------------------------------------------------------------- where pages differ

  /** The selector of one class. */
  function ClassSelector(word: string): C.Complex {
    C.Complex([C.Link(C.Descendant, C.Compound(C.Any, [C.Class(word)]))])
  }

  lemma ClassSelectorSupported(word: string, words: iset<string>)
    requires word in words
    ensures LinksSupported(ClassSelector(word).links, words)
  {
    ClassStep(word);
    var compound := ClassSelector(word).links[0].compound;
    assert compound.simples == [C.Class(word)] && SimpleSupported(C.Class(word), words);
    assert CompoundSupported(compound, words);
  }

  lemma ClassStep(word: string)
    ensures Counts([C.Class(word)]) == [] && Others([C.Class(word)]) == [X.ClassContains(word)]
    ensures StepsOf(ClassSelector(word).links) == [X.Step(X.Deep, X.Star, [X.ClassContains(word)])]
  {
    var simples, links := [C.Class(word)], ClassSelector(word).links;
    assert simples[1..] == [] && Counts(simples[1..]) == [] && Others(simples[1..]) == [];
    assert Counts(simples) == [] && Others(simples) == [PredicateOf(simples[0])] + [];
    assert PredicatesOf(links[0].compound) == Positions([]) + [X.ClassContains(word)] == [X.ClassContains(word)];
    assert links[..0] == [] && StepsOf(links) == StepsOf([]) + [StepOf(links[0])];
  }

  /** A single class is matched wherever CSS finds it. */
  lemma ClassMatched(d: Doc, i: nat, word: string)
    requires d.Valid() && d.Contains(i) && ClassWords.SpaceFree(word)
    requires !ClassWords.FoundInBoth(d.Attr(i, "class"), word)
    ensures 0 < i && i in C.Select(d, [ClassSelector(word)])
  {
    var links := ClassSelector(word).links;
    assert d.HasAttr(i, "class");
    DocumentIsAbove(d, i);
    assert links[..0] == [] && C.Matches(d, 0, [], 0);
    assert C.LinkMatches(d, i, links[0]);
    assert C.Matches(d, 0, links, i);
  }

  lemma OneStepHolds(d: Doc, axis: X.Axis, test: X.Test, p: X.Predicate, i: nat)
    requires d.Valid() && d.Contains(i) && !p.Position?
    requires i in X.Evaluate(d, {0}, [] + [X.Step(axis, test, [p])])
    ensures X.Holds(d, i, 0, p)
  {
    var step := X.Step(axis, test, [p]);
    EvaluateSnoc(d, {0}, [], step, i);
    var parent :| parent in X.Parents(d, 0, axis) && i in X.FilterAll(d, X.Children(d, parent, test, d.Size()), [p]);
    var list := X.Children(d, parent, test, d.Size());
    assert [p][1..] == [] && X.FilterAll(d, list, [p]) == X.Filter(d, list, 1, p);
    FilterOther(d, list, 1, p, i);
  }

  /** Its path selects only where XML finds it. */
  lemma ClassMissed(d: Doc, i: nat, word: string)
    requires d.Valid() && d.Contains(i) && ClassWords.SpaceFree(word)
    requires !ClassWords.FoundInBoth(d.Attr(i, "class"), word)
    ensures i !in X.SelectFrom(d, 0, PathsOf([ClassSelector(word)]))
  {
    ClassStep(word);
    ClassWords.ClassTestAgrees(d.Attr(i, "class"), word);
    if path :| path in PathsOf([ClassSelector(word)]) && i in X.Evaluate(d, {0}, path.steps) {
      PathsOfEach([ClassSelector(word)], path);
      OneStepHolds(d, X.Deep, X.Star, X.ClassContains(word), i);
      assert false;
    }
  }

  /** A check on the page alone: no form feed of a class attribute touches a class. */
  lemma ApartIsSeparated(d: Doc, words: iset<string>)
    requires Vocabulary(words)
    requires forall i: nat {:trigger d.Contains(i)} | d.Contains(i) :: ClassWords.FormFeedsApart(d.Attr(i, "class"))
    ensures Separated(d, words)
  {
    forall i: nat, w {:trigger d.Contains(i), w in words} | d.Contains(i) && w in words
      ensures ClassWords.FoundInBoth(d.Attr(i, "class"), w)
    {
      ClassWords.ApartIsFound(d.Attr(i, "class"), w);
    }
  }

  ghost predicate AllAgree(d: Doc, words: iset<string>)
    requires d.Valid()
  {
    forall selectors: seq<C.Complex> | (forall c | c in selectors :: LinksSupported(c.links, words)) ::
      X.SelectFrom(d, 0, PathsOf(selectors)) == C.Select(d, selectors)
  }

  /** Exactly the pages that separate the classes of a vocabulary in both languages are
      read alike by all selectors over it. */
  lemma PagesAgreeExactly(d: Doc, words: iset<string>)
    requires Vocabulary(words) && d.Valid()
    ensures AllAgree(d, words) <==> Separated(d, words)
  {
    if Separated(d, words) {
      forall selectors: seq<C.Complex> | forall c | c in selectors :: LinksSupported(c.links, words)
        ensures X.SelectFrom(d, 0, PathsOf(selectors)) == C.Select(d, selectors)
      {
        CompiledMeansTheSame(d, 0, selectors, words);
      }
    } else {
      var i: nat, w :| d.Contains(i) && w in words && !ClassWords.FoundInBoth(d.Attr(i, "class"), w);
      ClassMatched(d, i, w);
      ClassMissed(d, i, w);
      ClassSelectorSupported(w, words);
      assert !AllAgree(d, words);
    }
  }

  // ---------------------------------------------------------------- several counts

  /** A page of n siblings of one type. */
  function Siblings(tag: string, n: nat): Doc {
    Doc([Root] + seq(n, i => Element(tag, map[])), seq(n + 1, i => 0))
  }

  /** The numbers from 1 to below e. */
  function Numbers(e: nat): (s: set<nat>)
    ensures (forall j :: j in s <==> 0 < j < e) && (0 < e ==> |s| == e - 1)
  {
    if e <= 1 then {} else Numbers(e - 1) + {e - 1}
  }

  lemma SiblingIndex(tag: string, n: nat, e: nat)
    requires 0 < e <= n
    ensures Siblings(tag, n).Valid()
    ensures C.IndexOfType(Siblings(tag, n), e) == e
  {
    var d := Siblings(tag, n);
    SiblingsAre(tag, n);
    assert (set j: nat | 0 < j < e && d.Parent(j) == d.Parent(e) && C.TagMatches(d, j, C.Named(d.nodes[e].tag)))
        == Numbers(e);
  }

  lemma SiblingsAre(tag: string, n: nat)
    ensures var d := Siblings(tag, n);
      && d.Valid() && d.Size() == n + 1
      && forall j: nat | 0 < j <= n :: d.Parent(j) == 0 && d.nodes[j] == Element(tag, map[])
  {
  }

  /** The condition on counts is exact: when it fails, as for :nth-of-type(2) written
      twice, some page has an element on which the step and the compound differ. */
  lemma CountsAgreeIsNecessary(tag: string, counts: seq<nat>) returns (d: Doc, e: nat)
    requires !CountsAgree(counts) && forall k | 0 <= k < |counts| :: 0 < counts[k]
    ensures d.Valid() && 0 < e < d.Size() && d.nodes[e] == Element(tag, map[])
    ensures (e in X.FilterAll(d, X.Children(d, d.Parent(e), X.Tag(tag), d.Size()), Positions(counts)))
            != forall k | 0 <= k < |counts| :: C.IndexOfType(d, e) == counts[k]
  {
    e := counts[0];
    d := Siblings(tag, e);
    SiblingIndex(tag, e, e);
    PositionsSelect(d, e, counts);
    if forall k | 0 <= k < |counts| :: counts[k] == counts[0] {
      assert counts[1] != 1;
    } else {
      assert counts[1] == 1;
    }
  }
}
