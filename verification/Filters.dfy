/** Compiling filters and matching stories with them (internal/filter/filter.go and the
    field cache of internal/filter/text.go). */
module Filters {
  import opened Wrappers
  import opened FilterText
  import opened FilterTree

  datatype Compiled = Compiled(op: string, field: nat, keywords: seq<Text>, rules: seq<Compiled>)

  datatype Matcher = Matcher(including: Option<Compiled>, excluding: Option<Compiled>)

  datatype Error = TooDeep | TooManyNodes | TooManyKeywords | Malformed

  function FieldIndex(field: string): nat { if field == "description" then 1 else if field == "link" then 2 else 0 }

  /** The compiled form of a well-formed rule. */
  function CompiledOf(u: Unicode, r: Rule): Compiled
    decreases r, 0
  {
    Compiled(r.op, FieldIndex(r.field), NormalizedWords(u, Words(r)),
             if r.rules.NoRules? then [] else CompiledAll(u, r.rules.list))
  }

  function CompiledAll(u: Unicode, rules: seq<Rule>): (c: seq<Compiled>)
    ensures |c| == |rules|
    decreases rules, 1
  {
    if rules == [] then [] else CompiledAll(u, rules[..|rules| - 1]) + [CompiledOf(u, rules[|rules| - 1])]
  }

  lemma {:induction false} CompiledAt(u: Unicode, rules: seq<Rule>, i: nat)
    requires i < |rules|
    ensures CompiledAll(u, rules)[i] == CompiledOf(u, rules[i])
    decreases |rules|
  {
    if i < |rules| - 1 { CompiledAt(u, rules[..|rules| - 1], i); }
  }

  /** Keywords are trimmed, then normalized. */
  function NormalizedWords(u: Unicode, words: seq<Text>): seq<Text> {
    seq(|words|, i requires 0 <= i < |words| => Normalize(u, TrimSpace(words[i])))
  }

  function OptionalOf(u: Unicode, r: Option<Rule>): Option<Compiled> {
    if r.None? then None else Some(CompiledOf(u, r.value))
  }

  function MatcherOf(u: Unicode, filters: Option<FilterSet>): Matcher {
    if filters.None? then Matcher(None, None)
    else Matcher(OptionalOf(u, filters.value.including), OptionalOf(u, filters.value.excluding))
  }

  // ---------------------------------------------------------------- Compile

  /** The tree fits at this depth with what was counted before. */
  predicate Fits(r: Rule, nodes: nat, keywords: nat, depth: nat) {
    && WellFormed(r)
    && nodes + Nodes(r) <= MAX_NODES && keywords + Keywords(r) <= MAX_KEYWORDS && depth + Depth(r) - 1 <= MAX_DEPTH
  }

  predicate AllFit(rules: seq<Rule>, nodes: nat, keywords: nat, depth: nat) {
    && AllWellFormed(rules)
    && nodes + NodesOf(rules) <= MAX_NODES && keywords + KeywordsOf(rules) <= MAX_KEYWORDS
    && depth + DepthOf(rules) - 1 <= MAX_DEPTH
  }

  /** What an error says is true of the tree. */
  predicate Explains(e: Error, r: Rule, nodes: nat, keywords: nat, depth: nat) {
    match e
    case TooDeep => depth + Depth(r) - 1 > MAX_DEPTH
    case TooManyNodes => nodes + Nodes(r) > MAX_NODES
    case TooManyKeywords => keywords + Keywords(r) > MAX_KEYWORDS
    case Malformed => !WellFormed(r)
  }

  lemma {:induction false} FirstRuleCounts(rules: seq<Rule>, i: nat)
    requires i < |rules|
    ensures NodesOf(rules[..i]) + Nodes(rules[i]) <= NodesOf(rules)
    ensures KeywordsOf(rules[..i]) + Keywords(rules[i]) <= KeywordsOf(rules)
    ensures Depth(rules[i]) <= DepthOf(rules) && (AllWellFormed(rules) ==> WellFormed(rules[i]))
    decreases |rules|
  {
    var n := |rules| - 1;
    if i < n {
      FirstRuleCounts(rules[..n], i);
      assert rules[..n][..i] == rules[..i];
    }
  }

  /** What an error says is true of a list of rules. */
  predicate ExplainsAll(e: Error, rules: seq<Rule>, nodes: nat, keywords: nat, depth: nat) {
    match e
    case TooDeep => depth + DepthOf(rules) - 1 > MAX_DEPTH
    case TooManyNodes => nodes + NodesOf(rules) > MAX_NODES
    case TooManyKeywords => keywords + KeywordsOf(rules) > MAX_KEYWORDS
    case Malformed => !AllWellFormed(rules)
  }

  lemma FailingRule(e: Error, rules: seq<Rule>, i: nat, nodes: nat, keywords: nat, depth: nat)
    requires i < |rules|
    requires Explains(e, rules[i], nodes + NodesOf(rules[..i]), keywords + KeywordsOf(rules[..i]), depth)
    ensures ExplainsAll(e, rules, nodes, keywords, depth) && !AllFit(rules, nodes, keywords, depth)
  {
    FirstRuleCounts(rules, i);
  }

  lemma FittingRule(rules: seq<Rule>, i: nat, nodes: nat, keywords: nat, depth: nat)
    requires i < |rules| && AllFit(rules[..i], nodes, keywords, depth)
    requires Fits(rules[i], nodes + NodesOf(rules[..i]), keywords + KeywordsOf(rules[..i]), depth)
    ensures AllFit(rules[..i + 1], nodes, keywords, depth)
    ensures NodesOf(rules[..i + 1]) == NodesOf(rules[..i]) + Nodes(rules[i])
    ensures KeywordsOf(rules[..i + 1]) == KeywordsOf(rules[..i]) + Keywords(rules[i])
  {
    OneMoreRule(rules, i);
    assert rules[..i + 1][..i] == rules[..i];
  }

  lemma CompiledMore(u: Unicode, rules: seq<Rule>, i: nat)
    requires i < |rules|
    ensures CompiledAll(u, rules[..i + 1]) == CompiledAll(u, rules[..i]) + [CompiledOf(u, rules[i])]
  {
    assert rules[..i + 1][..i] == rules[..i];
  }

  lemma NoRulesFit(rules: seq<Rule>, nodes: nat, keywords: nat, depth: nat)
    requires nodes <= MAX_NODES && keywords <= MAX_KEYWORDS && depth <= MAX_DEPTH + 1
    ensures AllFit(rules[..0], nodes, keywords, depth) && NodesOf(rules[..0]) == KeywordsOf(rules[..0]) == 0
  {
  }

  lemma OneMoreRule(rules: seq<Rule>, i: nat)
    requires i < |rules|
    ensures NodesOf(rules[..i + 1]) == NodesOf(rules[..i]) + Nodes(rules[i])
    ensures KeywordsOf(rules[..i + 1]) == KeywordsOf(rules[..i]) + Keywords(rules[i])
    ensures DepthOf(rules[..i + 1]) == Max(DepthOf(rules[..i]), Depth(rules[i]))
  {
    assert rules[..i + 1][..i] == rules[..i];
  }

  /** The limits shared by a whole set. */
  class Budget {
    var nodes: nat
    var keywords: nat

    constructor ()
      ensures nodes == 0 && keywords == 0
    {
      nodes, keywords := 0, 0;
    }
  }

  /** The keywords of a leaf, trimmed and normalized, or an error at the first bad one. */
  method CompileKeywords(u: Unicode, words: seq<Text>) returns (r: Result<seq<Text>, Error>)
    ensures r.Ok? <==> forall i :: 0 <= i < |words| ==> KeywordOk(words[i])
    ensures r.Ok? ==> r.value == NormalizedWords(u, words)
    ensures r.Err? ==> r.error == Malformed
  {
    var keywords := [];
    for i := 0 to |words|
      invariant forall j :: 0 <= j < i ==> KeywordOk(words[j])
      invariant keywords == NormalizedWords(u, words[..i])
    {
      var keyword := TrimSpace(words[i]);
      if keyword == [] || !ValidString(keyword) || |keyword| > MAX_KEYWORD_CHARACTERS { return Err(Malformed); }
      keywords := keywords + [Normalize(u, keyword)];
    }
    assert words[..|words|] == words;
    return Ok(keywords);
  }

  /** A group's children, compiled in order until one fails. */
  method CompileRules(u: Unicode, rules: seq<Rule>, b: Budget, depth: nat) returns (r: Result<seq<Compiled>, Error>)
    requires b.nodes <= MAX_NODES && b.keywords <= MAX_KEYWORDS && depth <= MAX_DEPTH + 1
    modifies b
    ensures r.Ok? <==> AllFit(rules, old(b.nodes), old(b.keywords), depth)
    ensures r.Ok? ==> r.value == CompiledAll(u, rules)
    ensures r.Ok? ==> b.nodes == old(b.nodes) + NodesOf(rules) && b.keywords == old(b.keywords) + KeywordsOf(rules)
    ensures r.Err? ==> ExplainsAll(r.error, rules, old(b.nodes), old(b.keywords), depth)
    decreases rules, 1
  {
    var compiled := [];
    NoRulesFit(rules, b.nodes, b.keywords, depth);
    for i := 0 to |rules|
      invariant compiled == CompiledAll(u, rules[..i])
      invariant AllFit(rules[..i], old(b.nodes), old(b.keywords), depth)
      invariant b.nodes == old(b.nodes) + NodesOf(rules[..i]) <= MAX_NODES
      invariant b.keywords == old(b.keywords) + KeywordsOf(rules[..i]) <= MAX_KEYWORDS
    {
      var child := CompileRule(u, rules[i], b, depth);
      if child.Err? {
        FailingRule(child.error, rules, i, old(b.nodes), old(b.keywords), depth);
        return Err(child.error);
      }
      FittingRule(rules, i, old(b.nodes), old(b.keywords), depth);
      CompiledMore(u, rules, i);
      compiled := compiled + [child.value];
    }
    assert rules[..|rules|] == rules;
    return Ok(compiled);
  }

  /** compileRule. */
  method CompileRule(u: Unicode, rule: Rule, b: Budget, depth: nat) returns (r: Result<Compiled, Error>)
    requires b.nodes <= MAX_NODES && b.keywords <= MAX_KEYWORDS
    modifies b
    ensures r.Ok? <==> Fits(rule, old(b.nodes), old(b.keywords), depth)
    ensures r.Ok? ==> r.value == CompiledOf(u, rule)
    ensures r.Ok? ==> b.nodes == old(b.nodes) + Nodes(rule) && b.keywords == old(b.keywords) + Keywords(rule)
    ensures r.Err? ==> Explains(r.error, rule, old(b.nodes), old(b.keywords), depth)
    decreases rule, 0
  {
    if depth > MAX_DEPTH { return Err(TooDeep); }
    if b.nodes + 1 > MAX_NODES { return Err(TooManyNodes); }
    b.nodes := b.nodes + 1;
    if IsGroup(rule) {
      if Children(rule) == [] || rule.field != "" || rule.keywords.Some? { return Err(Malformed); }
      var children := CompileRules(u, rule.rules.list, b, depth + 1);
      if children.Err? { return Err(children.error); }
      return Ok(Compiled(rule.op, 0, [], children.value));
    }
    if rule.op != "contains_any" && rule.op != "contains_all" { return Err(Malformed); }
    if rule.rules.Rules? || Words(rule) == [] { return Err(Malformed); }
    if rule.field != "title" && rule.field != "description" && rule.field != "link" { return Err(Malformed); }
    if |Words(rule)| > MAX_KEYWORDS - b.keywords { return Err(TooManyKeywords); }
    b.keywords := b.keywords + |Words(rule)|;
    var keywords := CompileKeywords(u, Words(rule));
    if keywords.Err? { return Err(keywords.error); }
    return Ok(Compiled(rule.op, FieldIndex(rule.field), keywords.value, []));
  }

  /** Compile: the whole set or nothing, with one budget for both sides. */
  method Compile(u: Unicode, filters: Option<FilterSet>) returns (r: Result<Matcher, Error>)
    ensures r.Ok? <==> filters.Some? ==> Acceptable(filters.value)
    ensures r.Ok? ==> r.value == MatcherOf(u, filters)
    ensures r.Err? ==> filters.Some? && ExplainsAll(r.error, Sides(filters.value), 0, 0, 1)
  {
    if filters.None? { return Ok(Matcher(None, None)); }
    var b := new Budget();
    ghost var sides := Sides(filters.value);
    NoRulesFit(sides, 0, 0, 1);
    var including := CompileSide(u, filters.value.including, b, sides, 0);
    if including.Err? { return Err(including.error); }
    ghost var done := if filters.value.including.Some? then 1 else 0;
    var excluding := CompileSide(u, filters.value.excluding, b, sides, done);
    if excluding.Err? { return Err(excluding.error); }
    assert sides[..|sides|] == sides;
    return Ok(Matcher(including.value, excluding.value));
  }

  /** One side of a set, after `done` others. */
  method CompileSide(u: Unicode, side: Option<Rule>, b: Budget, ghost sides: seq<Rule>, ghost done: nat)
    returns (r: Result<Option<Compiled>, Error>)
    requires done <= |sides| && AllFit(sides[..done], 0, 0, 1)
    requires side.Some? ==> done < |sides| && sides[done] == side.value
    requires b.nodes == NodesOf(sides[..done]) && b.keywords == KeywordsOf(sides[..done])
    modifies b
    ensures var next := if side.Some? then done + 1 else done;
      r.Ok? ==> r.value == OptionalOf(u, side) && AllFit(sides[..next], 0, 0, 1)
                && b.nodes == NodesOf(sides[..next]) && b.keywords == KeywordsOf(sides[..next])
    ensures r.Err? ==> ExplainsAll(r.error, sides, 0, 0, 1) && !AllFit(sides, 0, 0, 1)
  {
    if side.None? { return Ok(None); }
    var compiled := CompileRule(u, side.value, b, 1);
    if compiled.Err? {
      FailingRule(compiled.error, sides, done, 0, 0, 1);
      return Err(compiled.error);
    }
    FittingRule(sides, done, 0, 0, 1);
    return Ok(Some(compiled.value));
  }

  // ---------------------------------------------------------------- matching

  function RawField(u: Unicode, story: Story, field: nat): Text {
    if field == 1 then u.describe(story.html) else if field == 2 then story.url else story.title
  }

  /** A story with its fields normalized as rules first ask for them. */
  class Subject {
    const u: Unicode
    const story: Story
    const values: array<Text>
    const ready: array<bool>

    ghost predicate Valid()
      reads this, values, ready
    {
      && values.Length == 3 && ready.Length == 3
      && forall f :: 0 <= f < 3 && ready[f] ==> values[f] == Normalize(u, RawField(u, story, f))
    }

    constructor (u: Unicode, story: Story)
      ensures Valid() && this.u == u && this.story == story && fresh(values) && fresh(ready)
    {
      this.u, this.story := u, story;
      values, ready := new Text[3](_ => []), new bool[3](_ => false);
    }

    method Value(field: nat) returns (value: Text)
      requires Valid() && field < 3
      modifies values, ready
      ensures Valid() && value == Normalize(u, RawField(u, story, field))
    {
      if !ready[field] {
        values[field] := Normalize(u, RawField(u, story, field));
        ready[field] := true;
      }
      return values[field];
    }
  }

  /** What a compiled rule decides, field by field. */
  predicate Decides(u: Unicode, c: Compiled, story: Story) {
    if c.op == "all" then forall i :: 0 <= i < |c.rules| ==> Decides(u, c.rules[i], story)
    else if c.op == "any" then exists i :: 0 <= i < |c.rules| && Decides(u, c.rules[i], story)
    else
      var value := Normalize(u, RawField(u, story, c.field));
      if c.op == "contains_all" then forall i :: 0 <= i < |c.keywords| ==> Contains(value, c.keywords[i])
      else exists i :: 0 <= i < |c.keywords| && Contains(value, c.keywords[i])
  }

  /** Fields are one of the three. */
  predicate Indexed(c: Compiled) {
    c.field < 3 && forall i :: 0 <= i < |c.rules| ==> Indexed(c.rules[i])
  }

  /** compiledRule.match, with its early returns. */
  method Match(c: Compiled, s: Subject) returns (matched: bool)
    requires s.Valid() && Indexed(c)
    modifies s.values, s.ready
    ensures s.Valid() && matched == Decides(s.u, c, s.story)
    decreases c
  {
    if c.op == "all" {
      for i := 0 to |c.rules|
        invariant s.Valid() && forall j :: 0 <= j < i ==> Decides(s.u, c.rules[j], s.story)
      {
        var child := Match(c.rules[i], s);
        if !child { return false; }
      }
      return true;
    }
    if c.op == "any" {
      for i := 0 to |c.rules|
        invariant s.Valid() && forall j :: 0 <= j < i ==> !Decides(s.u, c.rules[j], s.story)
      {
        var child := Match(c.rules[i], s);
        if child { return true; }
      }
      return false;
    }
    var value := s.Value(c.field);
    if c.op == "contains_all" {
      for i := 0 to |c.keywords|
        invariant forall j :: 0 <= j < i ==> Contains(value, c.keywords[j])
      {
        if !Contains(value, c.keywords[i]) { return false; }
      }
      return true;
    }
    for i := 0 to |c.keywords|
      invariant forall j :: 0 <= j < i ==> !Contains(value, c.keywords[j])
    {
      if Contains(value, c.keywords[i]) { return true; }
    }
    return false;
  }

  lemma {:induction false} CompiledIsIndexed(u: Unicode, r: Rule)
    ensures Indexed(CompiledOf(u, r))
    decreases r
  {
    forall i | 0 <= i < |Children(r)| ensures Indexed(CompiledOf(u, r).rules[i]) {
      CompiledIsIndexed(u, Children(r)[i]);
      CompiledAt(u, Children(r), i);
    }
  }

  /** Compiling keeps the meaning of a rule, well-formed or not. */
  lemma {:induction false} CompilingKeepsMeaning(u: Unicode, r: Rule, story: Story)
    ensures Decides(u, CompiledOf(u, r), story) == Matches(u, r, story)
    decreases r
  {
    var c := CompiledOf(u, r);
    assert |c.rules| == |Children(r)|;
    forall i | 0 <= i < |c.rules| ensures Decides(u, c.rules[i], story) == Matches(u, Children(r)[i], story) {
      CompilingKeepsMeaning(u, Children(r)[i], story);
      CompiledAt(u, Children(r), i);
    }
    forall i | 0 <= i < |Words(r)| ensures c.keywords[i] == Normalize(u, Words(r)[i]) {
      TrimmingIsAbsorbed(u, Words(r)[i]);
    }
  }

  /** What a story is told about the rule that kept it out. */
  function ReasonOf(c: Compiled, excluded: bool): string
    requires c.field < 3
  {
    var field := if c.field == 0 then "Title" else if c.field == 1 then "Description" else "Link";
    if c.op == "all" || c.op == "any" then
      if excluded then "Matched the exclude rules." else "Did not match the include rules."
    else if excluded then
      field + " matched " + (if c.op == "contains_all" then "all" else "at least one of") + " the exclude keywords."
    else
      field + " did not match " + (if c.op == "contains_all" then "all" else "any") + " of the include keywords."
  }

  /** The reason names the field of the rule as written and how its keywords were sought; a
      group only says which side it is on. */
  lemma ReasonNamesTheRule(u: Unicode, r: Rule, excluded: bool)
    requires WellFormed(r)
    ensures var reason := ReasonOf(CompiledOf(u, r), excluded);
      if r.op in {"all", "any"} then
        reason == if excluded then "Matched the exclude rules." else "Did not match the include rules."
      else
        && (r.field == "title" ==> reason == LeafReason("Title", r.op, excluded))
        && (r.field == "description" ==> reason == LeafReason("Description", r.op, excluded))
        && (r.field == "link" ==> reason == LeafReason("Link", r.op, excluded))
  {
  }

  function LeafReason(field: string, op: string, excluded: bool): string {
    match (excluded, op == "contains_all")
    case (true, true) => field + " matched " + "all" + " the exclude keywords."
    case (true, false) => field + " matched " + "at least one of" + " the exclude keywords."
    case (false, true) => field + " did not match " + "all" + " of the include keywords."
    case (false, false) => field + " did not match " + "any" + " of the include keywords."
  }

  datatype Decision = Decision(matched: bool, reason: string)

  /** Matcher.evaluate: the decision is that of the rules as written, and when asked for,
      the reason is about the include rules exactly when those kept the story out. */
  method Evaluate(u: Unicode, m: Matcher, ghost filters: Option<FilterSet>, story: Story, explain: bool)
    returns (d: Decision)
    requires m == MatcherOf(u, filters)
    ensures d.matched == Passes(u, filters, story)
    ensures m.including.Some? ==> Indexed(m.including.value)
    ensures m.excluding.Some? ==> Indexed(m.excluding.value)
    ensures d.matched || !explain ==> d.reason == ""
    ensures !d.matched && explain ==>
      if m.including.Some? && !Matches(u, filters.value.including.value, story) then
        d.reason == ReasonOf(m.including.value, false)
      else m.excluding.Some? && d.reason == ReasonOf(m.excluding.value, true)
  {
    if m.including.Some? { CompiledIsIndexed(u, filters.value.including.value); }
    if m.excluding.Some? { CompiledIsIndexed(u, filters.value.excluding.value); }
    var s := new Subject(u, story);
    if m.including.Some? {
      CompilingKeepsMeaning(u, filters.value.including.value, story);
      var included := Match(m.including.value, s);
      if !included { return Decision(false, if explain then ReasonOf(m.including.value, false) else ""); }
    }
    if m.excluding.Some? {
      CompilingKeepsMeaning(u, filters.value.excluding.value, story);
      var excluded := Match(m.excluding.value, s);
      if excluded { return Decision(false, if explain then ReasonOf(m.excluding.value, true) else ""); }
    }
    return Decision(true, "");
  }
}
