/** The part of XPath 1.0 the compiler writes, with the meaning of that recommendation:
    location paths are evaluated from the top, step by step, and the predicates of a
    step filter its candidates in order, each numbering what the one before it left. */
module XPath {
  import opened Document

  datatype Axis = Deep | Direct  // "//" and "/"

  datatype Test = Star | Tag(name: string)

  datatype Predicate =
    | Position(n: nat)                          // [2]
    | HasAttribute(name: string)                // [@href]
    | AttributeEquals(name: string, value: string)
    | ClassContains(word: string)               // [contains(concat(' ', normalize-space(@class), ' '), ' w ')]
    | Exists(paths: seq<Path>)                  // [.//a | ./b]

  datatype Step = Step(axis: Axis, test: Test, predicates: seq<Predicate>)

  datatype Path = Path(steps: seq<Step>)

  /** The white space of XML 1.0, which normalize-space() collapses (XPath 1.0, section 4.2). */
  predicate IsSpace(c: char) { c == ' ' || c == '\t' || c == '\n' || c == '\r' }

  function WordLength(text: string): (n: nat)
    ensures n <= |text|
    ensures forall j | 0 <= j < n :: !IsSpace(text[j])
    ensures n < |text| ==> IsSpace(text[n])
  {
    if text == "" || IsSpace(text[0]) then 0 else 1 + WordLength(text[1..])
  }

  /** The words of a string, between runs of white space. */
  function Words(text: string): seq<string>
    decreases |text|
  {
    if text == "" then []
    else if IsSpace(text[0]) then Words(text[1..])
    else [text[..WordLength(text)]] + Words(text[WordLength(text)..])
  }

  function Join(words: seq<string>): string {
    if words == [] then ""
    else if |words| == 1 then words[0]
    else words[0] + " " + Join(words[1..])
  }

  function NormalizeSpace(text: string): string { Join(Words(text)) }

  predicate PartAt(text: string, part: string, i: int) {
    0 <= i <= |text| - |part| && text[i..i + |part|] == part
  }

  ghost predicate Contains(text: string, part: string) { exists i :: PartAt(text, part, i) }

  predicate TestHolds(d: Doc, i: nat, test: Test)
    requires i < d.Size()
  {
    d.nodes[i].Element? && (test.Tag? ==> d.nodes[i].tag == test.name)
  }

  /** The first n nodes' children of p that pass the node test, in document order. */
  function Children(d: Doc, p: nat, test: Test, n: nat): (found: seq<nat>)
    requires d.Valid() && n <= d.Size()
    ensures forall c :: c in found <==> 0 < c < n && d.Parent(c) == p && TestHolds(d, c, test)
    ensures Within(d, found)
  {
    if n <= 1 then []
    else
      var before := Children(d, p, test, n - 1);
      if d.Parent(n - 1) == p && TestHolds(d, n - 1, test) then before + [n - 1] else before
  }

  ghost predicate Holds(d: Doc, node: nat, position: nat, p: Predicate)
    requires d.Valid() && node < d.Size()
    decreases p, 0
  {
    match p
    case Position(n) => position == n
    case HasAttribute(name) => d.HasAttr(node, name)
    case AttributeEquals(name, value) => d.HasAttr(node, name) && d.Attr(node, name) == value
    case ClassContains(word) => Contains(" " + NormalizeSpace(d.Attr(node, "class")) + " ", " " + word + " ")
    case Exists(paths) =>
      exists path, i: nat {:trigger path in paths, d.Contains(i)} | path in paths && d.Contains(i) ::
        i in Evaluate(d, {node}, path.steps)
  }

  predicate Within(d: Doc, nodes: seq<nat>) { forall k | 0 <= k < |nodes| :: nodes[k] < d.Size() }

  /** The candidates a predicate leaves, the first of them at position `from`. */
  ghost function Filter(d: Doc, nodes: seq<nat>, from: nat, p: Predicate): (left: seq<nat>)
    requires d.Valid() && Within(d, nodes)
    ensures Within(d, left)
    decreases p, |nodes| + 1
  {
    if nodes == [] then []
    else
      var rest := Filter(d, nodes[1..], from + 1, p);
      if Holds(d, nodes[0], from, p) then [nodes[0]] + rest else rest
  }

  ghost function FilterAll(d: Doc, nodes: seq<nat>, predicates: seq<Predicate>): (left: seq<nat>)
    requires d.Valid() && Within(d, nodes)
    ensures Within(d, left)
    decreases predicates
  {
    if predicates == [] then nodes
    else FilterAll(d, Filter(d, nodes, 1, predicates[0]), predicates[1..])
  }

  /** descendant-or-self::node() */
  function SelfAndBelow(d: Doc, node: nat): set<nat>
    requires d.Valid()
  {
    set i: nat | i < d.Size() && (i == node || node in d.Ancestors(i))
  }

  /** The nodes whose children a step looks at: "//" is short for
      /descendant-or-self::node()/ (XPath 1.0, section 2.5). */
  function Parents(d: Doc, node: nat, axis: Axis): set<nat>
    requires d.Valid()
  {
    match axis
    case Direct => {node}
    case Deep => SelfAndBelow(d, node)
  }

  ghost predicate StepSelects(d: Doc, node: nat, step: Step, i: nat)
    requires d.Valid() && node < d.Size() && i < d.Size()
    decreases step, 0
  {
    exists p | p in Parents(d, node, step.axis) ::
      i in FilterAll(d, Children(d, p, step.test, d.Size()), step.predicates)
  }

  ghost predicate Reached(d: Doc, context: set<nat>, step: Step, i: nat)
    requires d.Valid() && i < d.Size() && forall c | c in context :: c < d.Size()
    decreases step, 1
  {
    exists c | c in context :: StepSelects(d, c, step, i)
  }

  ghost function Evaluate(d: Doc, context: set<nat>, steps: seq<Step>): (selected: set<nat>)
    requires d.Valid() && forall c | c in context :: c < d.Size()
    ensures forall i | i in selected :: i < d.Size()
    decreases steps
  {
    if steps == [] then context
    else
      var next := set i: nat | i < d.Size() && Reached(d, context, steps[0], i);
      Evaluate(d, next, steps[1..])
  }

  ghost predicate SelectedByAny(d: Doc, node: nat, paths: seq<Path>, i: nat)
    requires d.Valid() && node < d.Size() && i < d.Size()
  {
    exists path | path in paths :: i in Evaluate(d, {node}, path.steps)
  }

  /** The nodes a union of location paths selects from one context node. */
  ghost function SelectFrom(d: Doc, node: nat, paths: seq<Path>): set<nat>
    requires d.Valid() && node < d.Size()
  {
    set i: nat | i < d.Size() && SelectedByAny(d, node, paths, i)
  }
}
