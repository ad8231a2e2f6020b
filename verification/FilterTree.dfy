/** Keyword rule trees and what they mean (internal/model/filters.go, and the evaluation in
    internal/filter/filter.go read as a definition). */
module FilterTree {
  import opened Wrappers
  import opened FilterText

  /** A rule as decoded: a list that is absent and one that is empty differ. */
  datatype Rule = Rule(op: string, field: string, keywords: Option<seq<Text>>, rules: Rules)

  datatype Rules = NoRules | Rules(list: seq<Rule>)

  datatype FilterSet = FilterSet(including: Option<Rule>, excluding: Option<Rule>)

  datatype Story = Story(title: Text, html: Text, url: Text)

  const MAX_KEYWORDS := 500
  const MAX_NODES := 128
  const MAX_DEPTH := 8
  const MAX_KEYWORD_CHARACTERS := 256

  function Children(r: Rule): (c: seq<Rule>)
    ensures forall i :: 0 <= i < |c| ==> c[i] < r
  {
    if r.rules.Rules? then r.rules.list else []
  }

  function Words(r: Rule): seq<Text> { if r.keywords.Some? then r.keywords.value else [] }

  /** The text a rule looks at; an unknown field reads as the title. */
  function FieldText(u: Unicode, story: Story, field: string): Text {
    if field == "description" then u.describe(story.html) else if field == "link" then story.url else story.title
  }

  // ---------------------------------------------------------------- meaning

  /** Whether a story matches a rule: keywords are sought in the folded, space-normalized
      text of a field. Any operator but the three others is contains_any. */
  predicate Matches(u: Unicode, r: Rule, story: Story) {
    if r.op == "all" then forall i :: 0 <= i < |Children(r)| ==> Matches(u, Children(r)[i], story)
    else if r.op == "any" then exists i :: 0 <= i < |Children(r)| && Matches(u, Children(r)[i], story)
    else
      var value := Normalize(u, FieldText(u, story, r.field));
      if r.op == "contains_all" then forall i :: 0 <= i < |Words(r)| ==> Contains(value, Normalize(u, Words(r)[i]))
      else exists i :: 0 <= i < |Words(r)| && Contains(value, Normalize(u, Words(r)[i]))
  }

  /** A story passes a set that includes it and does not exclude it. */
  predicate Passes(u: Unicode, filters: Option<FilterSet>, story: Story) {
    filters.Some? ==>
      && (filters.value.including.Some? ==> Matches(u, filters.value.including.value, story))
      && !(filters.value.excluding.Some? && Matches(u, filters.value.excluding.value, story))
  }

  /** The same rule but for the case of its keywords. */
  ghost predicate SameRule(u: Unicode, r: Rule, q: Rule)
    decreases r
  {
    && r.op == q.op && r.field == q.field
    && |Words(r)| == |Words(q)| && (forall i :: 0 <= i < |Words(r)| ==> SameText(u, Words(r)[i], Words(q)[i]))
    && |Children(r)| == |Children(q)|
    && (forall i :: 0 <= i < |Children(r)| ==> SameRule(u, Children(r)[i], Children(q)[i]))
  }

  ghost predicate SameStory(u: Unicode, a: Story, b: Story) {
    SameText(u, a.title, b.title) && SameText(u, u.describe(a.html), u.describe(b.html)) && SameText(u, a.url, b.url)
  }

  lemma {:induction false} CaseNeverMatters(u: Unicode, r: Rule, q: Rule, a: Story, b: Story)
    requires SameRule(u, r, q) && SameStory(u, a, b)
    ensures Matches(u, r, a) == Matches(u, q, b)
    decreases r
  {
    forall i | 0 <= i < |Children(r)| ensures Matches(u, Children(r)[i], a) == Matches(u, Children(q)[i], b) {
      CaseNeverMatters(u, Children(r)[i], Children(q)[i], a, b);
    }
    forall i | 0 <= i < |Words(r)| ensures Normalize(u, Words(r)[i]) == Normalize(u, Words(q)[i]) {
      CaseIsAbsorbed(u, Words(r)[i], Words(q)[i]);
    }
    CaseIsAbsorbed(u, FieldText(u, a, r.field), FieldText(u, b, q.field));
  }

  ghost predicate SameSide(u: Unicode, r: Option<Rule>, q: Option<Rule>) {
    r.Some? == q.Some? && (r.Some? ==> SameRule(u, r.value, q.value))
  }

  /** What a set passes does not depend on the case of its keywords or of the story. */
  lemma PassingIgnoresCase(u: Unicode, filters: FilterSet, others: FilterSet, a: Story, b: Story)
    requires SameSide(u, filters.including, others.including) && SameSide(u, filters.excluding, others.excluding)
    requires SameStory(u, a, b)
    ensures Passes(u, Some(filters), a) == Passes(u, Some(others), b)
  {
    if filters.including.Some? { CaseNeverMatters(u, filters.including.value, others.including.value, a, b); }
    if filters.excluding.Some? { CaseNeverMatters(u, filters.excluding.value, others.excluding.value, a, b); }
  }

  /** A leaf finds a keyword that is all of its own field, and looks at no other. */
  lemma LeafReadsItsField(u: Unicode, r: Rule, word: Text, a: Story, b: Story)
    requires r.op == "contains_any" && word in Words(r)
    ensures r.field == "title" && a.title == word ==> Matches(u, r, a)
    ensures r.field == "description" && u.describe(a.html) == word ==> Matches(u, r, a)
    ensures r.field == "link" && a.url == word ==> Matches(u, r, a)
    ensures r.field == "title" && a.title == b.title ==> Matches(u, r, a) == Matches(u, r, b)
    ensures r.field == "description" && a.html == b.html ==> Matches(u, r, a) == Matches(u, r, b)
    ensures r.field == "link" && a.url == b.url ==> Matches(u, r, a) == Matches(u, r, b)
  {
    var i :| 0 <= i < |Words(r)| && Words(r)[i] == word;
    var whole := Normalize(u, word);
    ContainsPart([], whole, []);
    assert [] + (whole + []) == whole;
  }

  // ---------------------------------------------------------------- shape and size

  predicate KeywordOk(k: Text) {
    var trimmed := TrimSpace(k);
    trimmed != [] && ValidString(trimmed) && |trimmed| <= MAX_KEYWORD_CHARACTERS
  }

  predicate IsKeyword(k: Text, i: nat, j: nat) {
    && i < j <= |k| && j - i <= 256 && (forall n :: i <= n < j ==> k[n].Char?)
    && !IsSpace(k[i]) && !IsSpace(k[j - 1]) && AllSpace(k[..i]) && AllSpace(k[j..])
  }

  lemma TrimmedKeyword(k: Text)
    requires KeywordOk(k)
    ensures exists i: nat, j: nat :: IsKeyword(k, i, j)
  {
    var i, j := TrimmedBounds(k);
    forall n | i <= n < j ensures k[n].Char? { assert k[n] == k[i..j][n - i]; }
    assert IsKeyword(k, i, j);
  }

  lemma KeywordTrimmed(k: Text, i: nat, j: nat)
    requires IsKeyword(k, i, j)
    ensures KeywordOk(k)
  {
    TrimmedTo(k, i, j);
    forall n | 0 <= n < j - i ensures k[i..j][n].Char? { assert k[i..j][n] == k[i + n]; }
  }

  ghost predicate HasKeyword(k: Text) { exists i: nat, j: nat :: IsKeyword(k, i, j) }

  /** A keyword is 1 to 256 valid characters, not counting white space around them. */
  lemma KeywordMeans(k: Text)
    ensures KeywordOk(k) <==> HasKeyword(k)
  {
    if KeywordOk(k) { TrimmedKeyword(k); }
    if i: nat, j: nat :| IsKeyword(k, i, j) { KeywordTrimmed(k, i, j); }
  }

  predicate IsGroup(r: Rule) { r.op == "all" || r.op == "any" }

  /** A group has child rules and nothing else; a leaf one known field and keywords. */
  predicate WellFormed(r: Rule)
    decreases r, 0
  {
    if IsGroup(r) then
      && r.rules.Rules? && r.rules.list != [] && r.field == "" && r.keywords.None?
      && AllWellFormed(r.rules.list)
    else
      && (r.op == "contains_any" || r.op == "contains_all")
      && r.rules.NoRules? && Words(r) != [] && r.field in ["title", "description", "link"]
      && forall i :: 0 <= i < |Words(r)| ==> KeywordOk(Words(r)[i])
  }

  predicate AllWellFormed(rules: seq<Rule>)
    decreases rules, 1
  {
    rules == [] || (AllWellFormed(rules[..|rules| - 1]) && WellFormed(rules[|rules| - 1]))
  }

  function Nodes(r: Rule): (n: nat)
    ensures 0 < n
    decreases r, 0
  {
    1 + if r.rules.NoRules? then 0 else NodesOf(r.rules.list)
  }

  function NodesOf(rules: seq<Rule>): nat
    decreases rules, 1
  {
    if rules == [] then 0 else NodesOf(rules[..|rules| - 1]) + Nodes(rules[|rules| - 1])
  }

  function Keywords(r: Rule): nat
    decreases r, 0
  {
    |Words(r)| + if r.rules.NoRules? then 0 else KeywordsOf(r.rules.list)
  }

  function KeywordsOf(rules: seq<Rule>): nat
    decreases rules, 1
  {
    if rules == [] then 0 else KeywordsOf(rules[..|rules| - 1]) + Keywords(rules[|rules| - 1])
  }

  function Depth(r: Rule): (n: nat)
    ensures 0 < n
    decreases r, 0
  {
    1 + if r.rules.NoRules? then 0 else DepthOf(r.rules.list)
  }

  function DepthOf(rules: seq<Rule>): nat
    decreases rules, 1
  {
    if rules == [] then 0 else Max(DepthOf(rules[..|rules| - 1]), Depth(rules[|rules| - 1]))
  }

  function Sides(filters: FilterSet): seq<Rule> {
    (if filters.including.Some? then [filters.including.value] else [])
        + if filters.excluding.Some? then [filters.excluding.value] else []
  }

  /** What Compile accepts: well-formed sides, within limits that both sides share. */
  predicate Acceptable(filters: FilterSet) {
    && AllWellFormed(Sides(filters))
    && NodesOf(Sides(filters)) <= MAX_NODES && KeywordsOf(Sides(filters)) <= MAX_KEYWORDS
    && DepthOf(Sides(filters)) <= MAX_DEPTH
  }

  // ---------------------------------------------------------------- what the check of a tree means

  /** A rule and every rule below it, with repetitions. */
  function Parts(r: Rule): (p: seq<Rule>)
    decreases r, 0
  {
    [r] + if r.rules.NoRules? then [] else PartsOf(r.rules.list)
  }

  function PartsOf(rules: seq<Rule>): seq<Rule>
    decreases rules, 1
  {
    if rules == [] then [] else PartsOf(rules[..|rules| - 1]) + Parts(rules[|rules| - 1])
  }

  /** What a rule must be, whatever is below it. */
  ghost predicate Shape(r: Rule) {
    if r.op in {"all", "any"} then
      r.field == "" && r.keywords.None? && r.rules.Rules? && 0 < |r.rules.list|
    else
      && r.op in {"contains_any", "contains_all"} && r.field in {"title", "description", "link"} && r.rules.NoRules?
      && r.keywords.Some? && 0 < |r.keywords.value|
      && forall k :: k in r.keywords.value ==> HasKeyword(k)
  }

  lemma KeywordsMean(words: seq<Text>)
    ensures (forall i :: 0 <= i < |words| ==> KeywordOk(words[i])) <==> (forall k :: k in words ==> HasKeyword(k))
  {
    forall i | 0 <= i < |words| ensures KeywordOk(words[i]) <==> HasKeyword(words[i]) { KeywordMeans(words[i]); }
  }

  /** A tree is well-formed when each rule of it has its shape, and has as many nodes. */
  lemma {:induction false} WellFormedMeans(r: Rule)
    ensures WellFormed(r) <==> forall q :: q in Parts(r) ==> Shape(q)
    ensures Nodes(r) == |Parts(r)|
    decreases r, 0
  {
    if r.rules.Rules? { AllWellFormedMean(r.rules.list); }
    KeywordsMean(Words(r));
    assert r in Parts(r);
    assert forall q :: q in Parts(r) <==> q == r || (r.rules.Rules? && q in PartsOf(r.rules.list));
  }

  lemma {:induction false} AllWellFormedMean(rules: seq<Rule>)
    ensures AllWellFormed(rules) <==> forall q :: q in PartsOf(rules) ==> Shape(q)
    ensures NodesOf(rules) == |PartsOf(rules)|
    decreases rules, 1
  {
    if rules != [] {
      var n := |rules| - 1;
      AllWellFormedMean(rules[..n]);
      WellFormedMeans(rules[n]);
      assert forall q :: q in PartsOf(rules) <==> q in PartsOf(rules[..n]) || q in Parts(rules[n]);
    }
  }

  /** Some rule is this many levels down, the root being on the first. */
  ghost predicate HasLevel(r: Rule, n: nat)
    decreases n
  {
    n == 1 || (n > 1 && exists i :: 0 <= i < |Children(r)| && HasLevel(Children(r)[i], n - 1))
  }

  lemma {:induction false} DepthIsLevels(r: Rule, n: nat)
    ensures HasLevel(r, n) <==> 1 <= n <= Depth(r)
    decreases r, 0
  {
    if n > 1 && r.rules.Rules? {
      DepthOfIsLevels(r.rules.list, n - 1);
      assert Children(r) == r.rules.list;
    }
  }

  lemma {:induction false} DepthOfIsLevels(rules: seq<Rule>, n: nat)
    requires 0 < n
    ensures (exists i :: 0 <= i < |rules| && HasLevel(rules[i], n)) <==> n <= DepthOf(rules)
    decreases rules, 1
  {
    if rules != [] {
      var front, last := rules[..|rules| - 1], |rules| - 1;
      DepthOfIsLevels(front, n);
      DepthIsLevels(rules[last], n);
      if i :| 0 <= i < |front| && HasLevel(front[i], n) { assert HasLevel(rules[i], n); }
      if i :| 0 <= i < |rules| && HasLevel(rules[i], n) { if i < last { assert HasLevel(front[i], n); } }
    }
  }

  /** A set is accepted when every rule has its shape, no rule is on a ninth level, and both
      sides together have no more than 128 rules and 500 keywords. */
  lemma AcceptableMeans(filters: FilterSet)
    ensures var sides := Sides(filters);
      Acceptable(filters)
      <==> && (forall q :: q in PartsOf(sides) ==> Shape(q)) && |PartsOf(sides)| <= 128 && KeywordsOf(sides) <= 500
           && !exists i :: 0 <= i < |sides| && HasLevel(sides[i], 9)
  {
    AllWellFormedMean(Sides(filters));
    DepthOfIsLevels(Sides(filters), 9);
  }
}
