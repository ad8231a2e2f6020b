/** Merging a feed's own rules with the library filters it uses
    (internal/filter/combine.go). */
module CombineFilters {
  import opened Wrappers
  import opened FilterText
  import opened FilterTree

  /** copyRule. Appending to nothing turns an empty list into an absent one. */
  function Copy(r: Rule): Rule
    decreases r, 0
  {
    Rule(r.op, r.field, if Words(r) == [] then None else r.keywords,
         if r.rules.NoRules? || r.rules.list == [] then NoRules else Rules(CopyAll(r.rules.list)))
  }

  function CopyAll(rules: seq<Rule>): (c: seq<Rule>)
    ensures |c| == |rules|
    decreases rules, 1
  {
    if rules == [] then [] else CopyAll(rules[..|rules| - 1]) + [Copy(rules[|rules| - 1])]
  }

  /** What one part puts in a joined group: itself, or its children when it is such a group. */
  function Spliced(op: string, part: Rule): seq<Rule> {
    if part.op == op then CopyAll(Children(part)) else [Copy(part)]
  }

  function SplicedAll(op: string, parts: seq<Rule>): seq<Rule> {
    if parts == [] then [] else SplicedAll(op, parts[..|parts| - 1]) + Spliced(op, parts[|parts| - 1])
  }

  function RulesOf(rules: seq<Rule>): Rules { if rules == [] then NoRules else Rules(rules) }

  function Joined(op: string, parts: seq<Rule>): Option<Rule> {
    if parts == [] then None
    else if |parts| == 1 then Some(Copy(parts[0]))
    else Some(Rule(op, "", None, RulesOf(SplicedAll(op, parts))))
  }

  function Present(r: Option<Rule>): seq<Rule> { if r.Some? then [r.value] else [] }

  function Includes(own: Option<FilterSet>, shared: seq<FilterSet>): seq<Rule> {
    if shared == [] then (if own.Some? then Present(own.value.including) else [])
    else Includes(own, shared[..|shared| - 1]) + Present(shared[|shared| - 1].including)
  }

  function Excludes(own: Option<FilterSet>, shared: seq<FilterSet>): seq<Rule> {
    if shared == [] then (if own.Some? then Present(own.value.excluding) else [])
    else Excludes(own, shared[..|shared| - 1]) + Present(shared[|shared| - 1].excluding)
  }

  function Combined(own: Option<FilterSet>, shared: seq<FilterSet>): Option<FilterSet> {
    if shared == [] then own
    else
      var including, excluding := Joined("all", Includes(own, shared)), Joined("any", Excludes(own, shared));
      if including.None? && excluding.None? then None else Some(FilterSet(including, excluding))
  }

  /** The children of a spliced group, copied. */
  method CopyChildren(rules: seq<Rule>) returns (copies: seq<Rule>)
    ensures copies == CopyAll(rules)
  {
    copies := [];
    for j := 0 to |rules|
      invariant copies == CopyAll(rules[..j])
    {
      assert rules[..j + 1][..j] == rules[..j];
      copies := copies + [Copy(rules[j])];
    }
    assert rules[..|rules|] == rules;
  }

  /** join. */
  method Join(op: string, parts: seq<Rule>) returns (joined: Option<Rule>)
    ensures joined == Joined(op, parts)
  {
    if |parts| == 0 { return None; }
    if |parts| == 1 { return Some(Copy(parts[0])); }
    var rules: seq<Rule> := [];
    for i := 0 to |parts|
      invariant rules == SplicedAll(op, parts[..i])
    {
      assert parts[..i + 1][..i] == parts[..i];
      if parts[i].op == op {
        var copies := CopyChildren(Children(parts[i]));
        rules := rules + copies;
      } else {
        rules := rules + [Copy(parts[i])];
      }
    }
    assert parts[..|parts|] == parts;
    return Some(Rule(op, "", None, RulesOf(rules)));
  }

  /** Combine. */
  method Combine(own: Option<FilterSet>, shared: seq<FilterSet>) returns (combined: Option<FilterSet>)
    ensures combined == Combined(own, shared)
  {
    if |shared| == 0 { return own; }
    var includes, excludes := [], [];
    if own.Some? {
      includes, excludes := Present(own.value.including), Present(own.value.excluding);
    }
    for i := 0 to |shared|
      invariant includes == Includes(own, shared[..i]) && excludes == Excludes(own, shared[..i])
    {
      assert shared[..i + 1][..i] == shared[..i];
      includes := includes + Present(shared[i].including);
      excludes := excludes + Present(shared[i].excluding);
    }
    assert shared[..|shared|] == shared;
    var including := Join("all", includes);
    var excluding := Join("any", excludes);
    if including.None? && excluding.None? { return None; }
    return Some(FilterSet(including, excluding));
  }

  // ---------------------------------------------------------------- meaning

  /** A story matches every rule, or some rule, of a list. */
  predicate AllMatch(u: Unicode, rules: seq<Rule>, story: Story) {
    rules == [] || (AllMatch(u, rules[..|rules| - 1], story) && Matches(u, rules[|rules| - 1], story))
  }

  predicate AnyMatches(u: Unicode, rules: seq<Rule>, story: Story) {
    rules != [] && (AnyMatches(u, rules[..|rules| - 1], story) || Matches(u, rules[|rules| - 1], story))
  }

  lemma {:induction false} AllMatchEach(u: Unicode, rules: seq<Rule>, story: Story)
    ensures AllMatch(u, rules, story) <==> forall i :: 0 <= i < |rules| ==> Matches(u, rules[i], story)
    decreases |rules|
  {
    if rules != [] {
      var n := |rules| - 1;
      var front := rules[..n];
      AllMatchEach(u, front, story);
      if AllMatch(u, rules, story) {
        forall i | 0 <= i < |rules| ensures Matches(u, rules[i], story) { if i < n { assert front[i] == rules[i]; } }
      }
    }
  }

  lemma {:induction false} AnyMatchesOne(u: Unicode, rules: seq<Rule>, story: Story)
    ensures AnyMatches(u, rules, story) <==> exists i :: 0 <= i < |rules| && Matches(u, rules[i], story)
    decreases |rules|
  {
    if rules != [] {
      var n := |rules| - 1;
      var front := rules[..n];
      AnyMatchesOne(u, front, story);
      if i :| 0 <= i < |rules| && Matches(u, rules[i], story) {
        if i < n { assert front[i] == rules[i]; }
      }
    }
  }

  /** A group matches as its operator says of its children. */
  lemma GroupMatches(u: Unicode, r: Rule, story: Story)
    ensures r.op == "all" ==> (Matches(u, r, story) <==> AllMatch(u, Children(r), story))
    ensures r.op == "any" ==> (Matches(u, r, story) <==> AnyMatches(u, Children(r), story))
  {
    AllMatchEach(u, Children(r), story);
    AnyMatchesOne(u, Children(r), story);
  }

  lemma {:induction false} BothLists(u: Unicode, a: seq<Rule>, b: seq<Rule>, story: Story)
    ensures AllMatch(u, a + b, story) <==> AllMatch(u, a, story) && AllMatch(u, b, story)
    ensures AnyMatches(u, a + b, story) <==> AnyMatches(u, a, story) || AnyMatches(u, b, story)
    decreases |b|
  {
    if b == [] {
      assert a + b == a;
    } else {
      var n := |b| - 1;
      BothLists(u, a, b[..n], story);
      assert (a + b)[..|a| + n] == a + b[..n];
    }
  }

  lemma {:induction false} CopyKeepsMeaning(u: Unicode, r: Rule, story: Story)
    ensures Matches(u, Copy(r), story) == Matches(u, r, story)
    decreases r, 0
  {
    assert Children(Copy(r)) == CopyAll(Children(r));
    assert Words(Copy(r)) == Words(r);
    if r.rules.Rules? { CopyAllKeepsMeaning(u, r.rules.list, story); }
    GroupMatches(u, r, story);
    GroupMatches(u, Copy(r), story);
  }

  lemma {:induction false} CopyAllKeepsMeaning(u: Unicode, rules: seq<Rule>, story: Story)
    ensures AllMatch(u, CopyAll(rules), story) <==> AllMatch(u, rules, story)
    ensures AnyMatches(u, CopyAll(rules), story) <==> AnyMatches(u, rules, story)
    decreases rules, 1
  {
    if rules != [] {
      var n := |rules| - 1;
      CopyAllKeepsMeaning(u, rules[..n], story);
      CopyKeepsMeaning(u, rules[n], story);
      assert CopyAll(rules)[..n] == CopyAll(rules[..n]);
    }
  }

  lemma One(u: Unicode, r: Rule, story: Story)
    ensures AllMatch(u, [r], story) == AnyMatches(u, [r], story) == Matches(u, r, story)
  {
    assert [r][..0] == [];
  }

  lemma SplicingKeepsMeaning(u: Unicode, op: string, part: Rule, story: Story)
    ensures op == "all" ==> (AllMatch(u, Spliced(op, part), story) <==> Matches(u, part, story))
    ensures op == "any" ==> (AnyMatches(u, Spliced(op, part), story) <==> Matches(u, part, story))
  {
    if part.op == op {
      CopyAllKeepsMeaning(u, Children(part), story);
      GroupMatches(u, part, story);
    } else {
      CopyKeepsMeaning(u, part, story);
      One(u, Copy(part), story);
    }
  }

  lemma {:induction false} SplicingAllKeepsMeaning(u: Unicode, op: string, parts: seq<Rule>, story: Story)
    ensures op == "all" ==> (AllMatch(u, SplicedAll(op, parts), story) <==> AllMatch(u, parts, story))
    ensures op == "any" ==> (AnyMatches(u, SplicedAll(op, parts), story) <==> AnyMatches(u, parts, story))
    decreases |parts|
  {
    if parts != [] {
      var n := |parts| - 1;
      SplicingAllKeepsMeaning(u, op, parts[..n], story);
      SplicingKeepsMeaning(u, op, parts[n], story);
      BothLists(u, SplicedAll(op, parts[..n]), Spliced(op, parts[n]), story);
    }
  }

  lemma JoiningKeepsMeaning(u: Unicode, op: string, parts: seq<Rule>, story: Story)
    requires op == "all" || op == "any"
    ensures Joined(op, parts).None? <==> parts == []
    ensures Joined(op, parts).Some? ==>
      (Matches(u, Joined(op, parts).value, story) <==>
          if op == "all" then AllMatch(u, parts, story) else AnyMatches(u, parts, story))
  {
    SplicingAllKeepsMeaning(u, op, parts, story);
    if |parts| == 1 {
      CopyKeepsMeaning(u, parts[0], story);
      One(u, parts[0], story);
      assert parts == [parts[0]];
    } else if |parts| > 1 {
      var joined := Joined(op, parts).value;
      assert Children(joined) == SplicedAll(op, parts);
      GroupMatches(u, joined, story);
    }
  }

  /** A story passes a list of sets. */
  predicate AllPass(u: Unicode, shared: seq<FilterSet>, story: Story) {
    forall i :: 0 <= i < |shared| ==> Passes(u, Some(shared[i]), story)
  }

  lemma {:induction false} SidesTogether(u: Unicode, own: Option<FilterSet>, shared: seq<FilterSet>, story: Story)
    ensures Passes(u, own, story) && AllPass(u, shared, story)
            <==> AllMatch(u, Includes(own, shared), story) && !AnyMatches(u, Excludes(own, shared), story)
    decreases |shared|
  {
    if shared == [] {
      if own.Some? { PresentSide(u, own.value.including, story); PresentSide(u, own.value.excluding, story); }
    } else {
      var n := |shared| - 1;
      var front, last := shared[..n], shared[n];
      SidesTogether(u, own, front, story);
      PresentSide(u, last.including, story);
      PresentSide(u, last.excluding, story);
      BothLists(u, Includes(own, front), Present(last.including), story);
      BothLists(u, Excludes(own, front), Present(last.excluding), story);
      assert AllPass(u, shared, story) <==> AllPass(u, front, story) && Passes(u, Some(last), story) by {
        assert forall i :: 0 <= i < n ==> front[i] == shared[i];
      }
    }
  }

  lemma PresentSide(u: Unicode, r: Option<Rule>, story: Story)
    ensures AllMatch(u, Present(r), story) <==> (r.Some? ==> Matches(u, r.value, story))
    ensures AnyMatches(u, Present(r), story) <==> r.Some? && Matches(u, r.value, story)
  {
    if r.Some? { One(u, r.value, story); }
  }

  /** Combining keeps meaning, for every tree, well-formed or not: a story passes the
      combined set exactly when it passes the feed's own and every library set. */
  lemma CombiningKeepsMeaning(u: Unicode, own: Option<FilterSet>, shared: seq<FilterSet>, story: Story)
    ensures Passes(u, Combined(own, shared), story)
            <==> Passes(u, own, story) && AllPass(u, shared, story)
  {
    if shared != [] {
      SidesTogether(u, own, shared, story);
      JoiningKeepsMeaning(u, "all", Includes(own, shared), story);
      JoiningKeepsMeaning(u, "any", Excludes(own, shared), story);
    }
  }

  // ---------------------------------------------------------------- size

  lemma {:induction false} CopyKeepsSize(r: Rule)
    ensures Nodes(Copy(r)) == Nodes(r) && Keywords(Copy(r)) == Keywords(r) && Depth(Copy(r)) == Depth(r)
    ensures WellFormed(r) ==> WellFormed(Copy(r))
    decreases r, 0
  {
    assert Words(Copy(r)) == Words(r);
    if r.rules.Rules? { CopyAllKeepsSize(r.rules.list); }
  }

  lemma {:induction false} CopyAllKeepsSize(rules: seq<Rule>)
    ensures NodesOf(CopyAll(rules)) == NodesOf(rules) && KeywordsOf(CopyAll(rules)) == KeywordsOf(rules)
    ensures DepthOf(CopyAll(rules)) == DepthOf(rules)
    ensures AllWellFormed(rules) ==> AllWellFormed(CopyAll(rules))
    decreases rules, 1
  {
    if rules != [] {
      var n := |rules| - 1;
      CopyAllKeepsSize(rules[..n]);
      CopyKeepsSize(rules[n]);
      assert CopyAll(rules)[..n] == CopyAll(rules[..n]);
    }
  }

  lemma {:induction false} BothSizes(a: seq<Rule>, b: seq<Rule>)
    ensures NodesOf(a + b) == NodesOf(a) + NodesOf(b) && KeywordsOf(a + b) == KeywordsOf(a) + KeywordsOf(b)
    ensures DepthOf(a + b) == Max(DepthOf(a), DepthOf(b))
    ensures AllWellFormed(a + b) <==> AllWellFormed(a) && AllWellFormed(b)
    decreases |b|
  {
    if b == [] {
      assert a + b == a;
    } else {
      var n := |b| - 1;
      BothSizes(a, b[..n]);
      assert (a + b)[..|a| + n] == a + b[..n];
    }
  }

  /** How many parts are spliced, and the keywords on their roots, which splicing drops. A
      well-formed group has none. */
  function SplicedParts(op: string, parts: seq<Rule>): nat {
    if parts == [] then 0
    else SplicedParts(op, parts[..|parts| - 1]) + if parts[|parts| - 1].op == op then 1 else 0
  }

  function DroppedKeywords(op: string, parts: seq<Rule>): nat {
    if parts == [] then 0
    else DroppedKeywords(op, parts[..|parts| - 1])
         + if parts[|parts| - 1].op == op then |Words(parts[|parts| - 1])| else 0
  }

  /** The levels below a join: those of its deepest part, one less for a part it splices. */
  function LevelsOf(op: string, parts: seq<Rule>): nat {
    if parts == [] then 0
    else
      var last := parts[|parts| - 1];
      Max(LevelsOf(op, parts[..|parts| - 1]), Depth(last) - if last.op == op then 1 else 0)
  }

  lemma SplicedSize(op: string, part: Rule)
    ensures var rules := Spliced(op, part);
      && NodesOf(rules) == Nodes(part) - (if part.op == op then 1 else 0)
      && KeywordsOf(rules) == Keywords(part) - (if part.op == op then |Words(part)| else 0)
      && DepthOf(rules) == Depth(part) - (if part.op == op then 1 else 0)
      && (WellFormed(part) && (op == "all" || op == "any") ==>
            rules != [] && AllWellFormed(rules) && (part.op == op ==> Words(part) == []))
  {
    if part.op == op {
      CopyAllKeepsSize(Children(part));
    } else {
      CopyKeepsSize(part);
      assert [Copy(part)][..0] == [];
    }
  }

  lemma {:induction false} SplicedAllSize(op: string, parts: seq<Rule>)
    ensures var rules := SplicedAll(op, parts);
      && NodesOf(rules) + SplicedParts(op, parts) == NodesOf(parts)
      && KeywordsOf(rules) + DroppedKeywords(op, parts) == KeywordsOf(parts)
    decreases |parts|
  {
    if parts != [] {
      var n := |parts| - 1;
      SplicedAllSize(op, parts[..n]);
      SplicedSize(op, parts[n]);
      BothSizes(SplicedAll(op, parts[..n]), Spliced(op, parts[n]));
    }
  }

  lemma {:induction false} SplicedAllDepth(op: string, parts: seq<Rule>)
    ensures DepthOf(SplicedAll(op, parts)) == LevelsOf(op, parts) <= DepthOf(parts)
    decreases |parts|
  {
    if parts != [] {
      var n := |parts| - 1;
      SplicedAllDepth(op, parts[..n]);
      SplicedSize(op, parts[n]);
      BothSizes(SplicedAll(op, parts[..n]), Spliced(op, parts[n]));
    }
  }

  lemma {:induction false} SplicedAllWellFormed(op: string, parts: seq<Rule>)
    requires AllWellFormed(parts) && (op == "all" || op == "any")
    ensures AllWellFormed(SplicedAll(op, parts)) && DroppedKeywords(op, parts) == 0
    ensures parts != [] ==> SplicedAll(op, parts) != []
    decreases |parts|
  {
    if parts != [] {
      var n := |parts| - 1;
      SplicedAllWellFormed(op, parts[..n]);
      SplicedSize(op, parts[n]);
      BothSizes(SplicedAll(op, parts[..n]), Spliced(op, parts[n]));
    }
  }

  /** One side of a combined set: a join of two parts or more adds one node and takes one
      from each part it splices, is one level deeper than what it joins, and keeps every
      keyword but those on the roots it splices. Well-formed parts join to a well-formed rule. */
  lemma JoinedSize(op: string, parts: seq<Rule>)
    requires (op == "all" || op == "any") && parts != []
    ensures var joined := Joined(op, parts).value;
      && (|parts| == 1 ==> Nodes(joined) == NodesOf(parts) && Keywords(joined) == KeywordsOf(parts))
      && (|parts| > 1 ==> Nodes(joined) + SplicedParts(op, parts) == NodesOf(parts) + 1)
      && (|parts| > 1 ==> Keywords(joined) + DroppedKeywords(op, parts) == KeywordsOf(parts))
      && Depth(joined) == (if |parts| == 1 then DepthOf(parts) else 1 + LevelsOf(op, parts)) <= DepthOf(parts) + 1
      && (AllWellFormed(parts) ==> WellFormed(joined) && Keywords(joined) == KeywordsOf(parts))
  {
    if |parts| == 1 {
      CopyKeepsSize(parts[0]);
      assert parts[..0] == [];
    } else {
      SplicedAllSize(op, parts);
      SplicedAllDepth(op, parts);
      if AllWellFormed(parts) { SplicedAllWellFormed(op, parts); }
      assert Words(Joined(op, parts).value) == [];
    }
  }

  ghost predicate SidesWellFormed(own: Option<FilterSet>, shared: seq<FilterSet>) {
    AllWellFormed(Includes(own, shared)) && AllWellFormed(Excludes(own, shared))
  }

  lemma OneSide(r: Rule)
    ensures NodesOf([r]) == Nodes(r) && KeywordsOf([r]) == Keywords(r) && DepthOf([r]) == Depth(r)
    ensures AllWellFormed([r]) <==> WellFormed(r)
  {
    assert [r][..0] == [];
  }

  lemma SideSize(op: string, parts: seq<Rule>)
    requires (op == "all" || op == "any") && AllWellFormed(parts)
    ensures var side := Present(Joined(op, parts));
      && AllWellFormed(side) && KeywordsOf(side) == KeywordsOf(parts)
      && NodesOf(side) <= NodesOf(parts) + 1 && DepthOf(side) <= DepthOf(parts) + 1
  {
    if parts != [] {
      JoinedSize(op, parts);
      OneSide(Joined(op, parts).value);
    }
  }

  /** Combining filters that are well-formed each gives a set that Compile can refuse only
      for its size: the keywords are exactly those of the parts, and each side has at most
      one node and one level more. */
  lemma CombinedSize(own: Option<FilterSet>, shared: seq<FilterSet>)
    requires SidesWellFormed(own, shared) && shared != [] && Combined(own, shared).Some?
    ensures var combined, parts := Combined(own, shared).value, Includes(own, shared) + Excludes(own, shared);
      && AllWellFormed(Sides(combined))
      && KeywordsOf(Sides(combined)) == KeywordsOf(parts)
      && NodesOf(Sides(combined)) <= NodesOf(parts) + 2
      && DepthOf(Sides(combined)) <= DepthOf(parts) + 1
      && (Acceptable(combined) <==>
            && NodesOf(Sides(combined)) <= MAX_NODES && KeywordsOf(parts) <= MAX_KEYWORDS
            && DepthOf(Sides(combined)) <= MAX_DEPTH)
  {
    var includes, excludes := Includes(own, shared), Excludes(own, shared);
    var combined := Combined(own, shared).value;
    SideSize("all", includes);
    SideSize("any", excludes);
    BothSizes(includes, excludes);
    SidesSize(combined.including, combined.excluding);
  }

  lemma SidesSize(including: Option<Rule>, excluding: Option<Rule>)
    ensures var sides, a, b := Sides(FilterSet(including, excluding)), Present(including), Present(excluding);
      && NodesOf(sides) == NodesOf(a) + NodesOf(b) && KeywordsOf(sides) == KeywordsOf(a) + KeywordsOf(b)
      && DepthOf(sides) == Max(DepthOf(a), DepthOf(b))
      && (AllWellFormed(sides) <==> AllWellFormed(a) && AllWellFormed(b))
  {
    BothSizes(Present(including), Present(excluding));
    assert Sides(FilterSet(including, excluding)) == Present(including) + Present(excluding);
  }
}
