/** The page snapshot of the visual picker: internal/web/selector.go walks the parsed page
    into a flat list of nodes, and internal/web/assets/selector-frame.js builds the mirror
    that selectors run on from that list. */
module Snapshot {
  import opened Wrappers

  /** A parsed node. `foreign` elements belong to another namespace; comments and doctypes
      have no children. Attributes are not part of the model. */
  datatype Node = Element(tag: string, foreign: bool, children: seq<Node>) | Text(data: string) | Comment

  /** One entry of the list. A text has no tag. */
  datatype Flat = Flat(parent: int, tag: string, text: string, hidden: bool)

  datatype Error = TooComplex | UnsupportedTag

  const MAX_DEPTH := 100
  const MAX_NODES := 12000

  /** ^[a-z][a-z0-9-]*$ */
  predicate TagSupported(tag: string) {
    && tag != "" && 'a' <= tag[0] <= 'z'
    && forall i :: 0 <= i < |tag| ==> 'a' <= tag[i] <= 'z' || '0' <= tag[i] <= '9' || tag[i] == '-'
  }

  /** A tag is a small ASCII letter, then such letters, digits and hyphens. */
  lemma TagsAre(tag: string)
    ensures TagSupported(tag)
            <==> && 0 < |tag| && 97 <= tag[0] as int <= 122
                 && forall c :: c in tag ==> 97 <= c as int <= 122 || 48 <= c as int <= 57 || c as int == 45
  {
    assert forall i :: 0 <= i < |tag| ==> tag[i] in tag;
    if TagSupported(tag) {
      forall c | c in tag ensures 'a' <= c <= 'z' || '0' <= c <= '9' || c == '-' {
        var i :| 0 <= i < |tag| && tag[i] == c;
      }
    }
  }

  const HIDDEN_TAGS := [
    "head", "script", "style", "iframe", "frame", "frameset", "object", "embed", "template", "noscript", "svg", "math",
    "canvas", "audio", "video", "source", "track", "link", "meta", "base", "form", "input", "textarea", "select",
    "option", "button"]

  predicate Hidden(n: Node)
    requires n.Element?
  {
    n.foreign || n.tag in HIDDEN_TAGS
  }

  // ---------------------------------------------------------------- walking the page

  /** The entries a node adds when `start` entries are already there. */
  function Walked(n: Node, parent: int, depth: nat, start: nat): Result<seq<Flat>, Error>
    decreases n, 0
  {
    if depth > MAX_DEPTH || start >= MAX_NODES then Err(TooComplex)
    else
      match n
      case Comment => Ok([])
      case Text(data) => Ok([Flat(parent, "", data, false)])
      case Element(tag, foreign, children) =>
        if !TagSupported(tag) then Err(UnsupportedTag)
        else
          var entry := Flat(parent, tag, "", Hidden(n));
          if Hidden(n) then Ok([entry])
          else
            var rest := WalkedAll(children, start, depth + 1, start + 1);
            if rest.Err? then rest else Ok([entry] + rest.value)
  }

  function WalkedAll(nodes: seq<Node>, parent: int, depth: nat, start: nat): Result<seq<Flat>, Error>
    decreases nodes, 1
  {
    if nodes == [] then Ok([])
    else
      var front := WalkedAll(nodes[..|nodes| - 1], parent, depth, start);
      if front.Err? then front
      else
        var last := Walked(nodes[|nodes| - 1], parent, depth, start + |front.value|);
        if last.Err? then last else Ok(front.value + last.value)
  }

  /** selectorTree on the children of the document node. */
  function Tree(document: seq<Node>): Result<seq<Flat>, Error> { WalkedAll(document, -1, 1, 0) }

  class Walker {
    var nodes: seq<Flat>

    constructor ()
      ensures nodes == []
    {
      nodes := [];
    }

    /** The walk closure: appends to the shared list as it recurses. */
    method Walk(n: Node, parent: int, depth: nat) returns (error: Option<Error>)
      modifies this
      ensures var walked := Walked(n, parent, depth, |old(nodes)|);
        if walked.Err? then error == Some(walked.error) else error == None && nodes == old(nodes) + walked.value
      decreases n, 0
    {
      if depth > MAX_DEPTH || |nodes| >= MAX_NODES { return Some(TooComplex); }
      match n {
        case Comment =>
          return None;
        case Text(data) =>
          nodes := nodes + [Flat(parent, "", data, false)];
          return None;
        case Element(tag, foreign, children) =>
          if !TagSupported(tag) { return Some(UnsupportedTag); }
          var index := |nodes|;
          nodes := nodes + [Flat(parent, tag, "", Hidden(n))];
          if Hidden(n) { return None; }
          error := WalkAll(children, index, depth + 1);
      }
    }

    method WalkAll(children: seq<Node>, parent: int, depth: nat) returns (error: Option<Error>)
      modifies this
      ensures var walked := WalkedAll(children, parent, depth, |old(nodes)|);
        if walked.Err? then error == Some(walked.error) else error == None && nodes == old(nodes) + walked.value
      decreases children, 1
    {
      for i := 0 to |children|
        invariant WalkedAll(children[..i], parent, depth, |old(nodes)|).Ok?
        invariant nodes == old(nodes) + WalkedAll(children[..i], parent, depth, |old(nodes)|).value
      {
        assert children[..i + 1][..i] == children[..i];
        error := Walk(children[i], parent, depth);
        if error.Some? {
          ErrorStays(children, i + 1, parent, depth, |old(nodes)|);
          return;
        }
      }
      assert children[..|children|] == children;
      return None;
    }
  }

  /** A walk that fails on some children fails on all. */
  lemma {:induction false} ErrorStays(nodes: seq<Node>, i: nat, parent: int, depth: nat, start: nat)
    requires i <= |nodes| && WalkedAll(nodes[..i], parent, depth, start).Err?
    ensures WalkedAll(nodes, parent, depth, start) == WalkedAll(nodes[..i], parent, depth, start)
    decreases |nodes|
  {
    if i == |nodes| {
      assert nodes[..i] == nodes;
    } else {
      assert nodes[..|nodes| - 1][..i] == nodes[..i];
      ErrorStays(nodes[..|nodes| - 1], i, parent, depth, start);
    }
  }

  // ---------------------------------------------------------------- building the mirror

  /** The mirror's nodes, kept by their position in the list: each one's children in order,
      whether it was attached, and the children of the document. */
  datatype Dom = Dom(list: seq<Flat>, kids: seq<seq<nat>>, attached: seq<bool>, roots: seq<nat>, failed: bool)

  const EMPTY := Dom([], [], [], [], false)

  predicate Aligned(d: Dom) { |d.list| == |d.kids| == |d.attached| }

  /** One round of build's loop. Appending fails on a text, and on a document that has its
      root element; a text is not attached to the document. */
  function Appended(d: Dom, n: Flat): (r: Dom)
    requires Aligned(d)
    ensures Aligned(r) && r.list == d.list + [n]
  {
    var i := |d.list|;
    var added := d.(list := d.list + [n], kids := d.kids + [[]], attached := d.attached + [true]);
    if n.parent < 0 then
      if n.tag == "" then added.(attached := d.attached + [false])
      else added.(roots := d.roots + [i], failed := d.failed || d.roots != [])
    else if n.parent >= i || !d.attached[n.parent] then added.(attached := d.attached + [false])
    else if d.list[n.parent].tag == "" then added.(failed := true)
    else added.(kids := d.kids[n.parent := d.kids[n.parent] + [i]] + [[]])
  }

  function Built(d: Dom, list: seq<Flat>): (r: Dom)
    requires Aligned(d)
    ensures Aligned(r) && r.list == d.list + list
  {
    if list == [] then d else Appended(Built(d, list[..|list| - 1]), list[|list| - 1])
  }

  /** The mirror as build keeps it. */
  class Page {
    var list: seq<Flat>
    var kids: seq<seq<nat>>
    var attached: seq<bool>
    var roots: seq<nat>

    ghost function State(): Dom reads this { Dom(list, kids, attached, roots, false) }

    constructor ()
      ensures State() == EMPTY
    {
      list, kids, attached, roots := [], [], [], [];
    }

    /** One round of build's loop; `thrown` when the browser throws. */
    method Append(n: Flat) returns (thrown: bool)
      requires Aligned(State())
      modifies this
      ensures thrown == Appended(old(State()), n).failed
      ensures !thrown ==> State() == Appended(old(State()), n)
    {
      var i := |list|;
      if n.parent < 0 {
        if n.tag == "" {
          attached := attached + [false];
        } else {
          if roots != [] { return true; }
          roots, attached := roots + [i], attached + [true];
        }
      } else if n.parent >= i || !attached[n.parent] {
        attached := attached + [false];
      } else if list[n.parent].tag == "" {
        return true;
      } else {
        kids := kids[n.parent := kids[n.parent] + [i]];
        attached := attached + [true];
      }
      list, kids := list + [n], kids + [[]];
      return false;
    }

    /** build, as far as the mirror goes. */
    method Build(nodes: seq<Flat>) returns (thrown: bool)
      modifies this
      ensures thrown == Built(EMPTY, nodes).failed
      ensures !thrown ==> State() == Built(EMPTY, nodes)
    {
      list, kids, attached, roots := [], [], [], [];
      for i := 0 to |nodes|
        invariant Aligned(State()) && State() == Built(EMPTY, nodes[..i])
      {
        assert nodes[..i + 1][..i] == nodes[..i];
        var failed := Append(nodes[i]);
        if failed {
          FailureStays(EMPTY, nodes, i + 1);
          return true;
        }
      }
      assert nodes[..|nodes|] == nodes;
      return false;
    }
  }

  lemma {:induction false} FailureStays(d: Dom, list: seq<Flat>, i: nat)
    requires Aligned(d) && i <= |list| && Built(d, list[..i]).failed
    ensures Built(d, list).failed
    decreases |list|
  {
    if i == |list| {
      assert list[..i] == list;
    } else {
      assert list[..|list| - 1][..i] == list[..i];
      FailureStays(d, list[..|list| - 1], i);
    }
  }

  // ---------------------------------------------------------------- the tree it stands for

  datatype Mirror = MirrorElement(tag: string, children: seq<Mirror>) | MirrorText(data: string)

  /** Children come after their parent and before `end`. */
  predicate Closed(kids: seq<seq<nat>>, from: nat, end: nat)
    requires end <= |kids|
  {
    forall j, c :: from <= j < end && c in kids[j] ==> j < c < end
  }

  function MirrorAt(d: Dom, i: nat, end: nat): Mirror
    requires Aligned(d) && i < end <= |d.list| && Closed(d.kids, i, end)
    decreases end - i, 0
  {
    if d.list[i].tag == "" then MirrorText(d.list[i].text)
    else MirrorElement(d.list[i].tag, MirrorsAt(d, d.kids[i], i + 1, end))
  }

  function MirrorsAt(d: Dom, positions: seq<nat>, from: nat, end: nat): (r: seq<Mirror>)
    requires Aligned(d) && from <= end <= |d.list| && Closed(d.kids, from, end)
    requires forall c :: c in positions ==> from <= c < end
    ensures |r| == |positions|
    decreases end - from, 1, |positions|
  {
    if positions == [] then []
    else
      var n := |positions| - 1;
      assert positions[n] in positions && forall c :: c in positions[..n] ==> c in positions;
      MirrorsAt(d, positions[..n], from, end) + [MirrorAt(d, positions[n], end)]
  }

  /** The page the mirror should show: comments dropped, hidden elements without content. */
  function Cut(n: Node): seq<Mirror>
    decreases n, 0
  {
    match n
    case Comment => []
    case Text(data) => [MirrorText(data)]
    case Element(tag, foreign, children) => [MirrorElement(tag, if Hidden(n) then [] else CutAll(children))]
  }

  function CutAll(nodes: seq<Node>): seq<Mirror>
    decreases nodes, 1
  {
    if nodes == [] then [] else CutAll(nodes[..|nodes| - 1]) + Cut(nodes[|nodes| - 1])
  }

  // ---------------------------------------------------------------- the round trip

  lemma {:induction false} BuiltInTwo(d: Dom, a: seq<Flat>, b: seq<Flat>)
    requires Aligned(d)
    ensures Built(d, a + b) == Built(Built(d, a), b)
    decreases |b|
  {
    if b == [] {
      assert a + b == a;
    } else {
      var n := |b| - 1;
      BuiltInTwo(d, a, b[..n]);
      assert (a + b)[..|a| + n] == a + b[..n];
    }
  }

  lemma BuiltOne(d: Dom, n: Flat)
    requires Aligned(d)
    ensures Built(d, [n]) == Appended(d, n)
  {
    assert [n][..0] == [];
  }

  /** Two mirrors agree between two positions. */
  predicate SameBetween(d: Dom, e: Dom, from: nat, end: nat)
    requires Aligned(d) && Aligned(e) && end <= |d.list| && end <= |e.list|
  {
    forall j :: from <= j < end ==> d.kids[j] == e.kids[j] && d.list[j] == e.list[j]
  }

  /** A subtree that stays within its range is unchanged by what is added after it. */
  lemma {:induction false} MirrorStays(d: Dom, e: Dom, i: nat, end: nat, later: nat)
    requires Aligned(d) && Aligned(e) && i < end <= later && end <= |d.list| && later <= |e.list|
    requires Closed(d.kids, i, end) && Closed(e.kids, i, later) && SameBetween(d, e, i, end)
    ensures MirrorAt(d, i, end) == MirrorAt(e, i, later)
    decreases end - i, 0
  {
    if d.list[i].tag != "" { MirrorsStay(d, e, d.kids[i], i + 1, end, later); }
  }

  lemma {:induction false} MirrorsStay(d: Dom, e: Dom, positions: seq<nat>, from: nat, end: nat, later: nat)
    requires Aligned(d) && Aligned(e) && from <= end <= later && end <= |d.list| && later <= |e.list|
    requires Closed(d.kids, from, end) && Closed(e.kids, from, later) && SameBetween(d, e, from, end)
    requires forall c :: c in positions ==> from <= c < end
    ensures MirrorsAt(d, positions, from, end) == MirrorsAt(e, positions, from, later)
    decreases end - from, 1, |positions|
  {
    if positions != [] {
      var n := |positions| - 1;
      assert positions[n] in positions && forall c :: c in positions[..n] ==> c in positions;
      MirrorsStay(d, e, positions[..n], from, end, later);
      MirrorStays(d, e, positions[n], end, later);
    }
  }

  /** Whether children can be appended to this parent. */
  predicate Takes(d: Dom, parent: int)
    requires Aligned(d)
  {
    parent == -1 || (0 <= parent < |d.list| && d.attached[parent] && d.list[parent].tag != "")
  }

  /** What `parent` gained, and nothing else before it changed. */
  predicate Gained(d: Dom, e: Dom, parent: int, positions: seq<nat>)
    requires Aligned(d) && Aligned(e) && |d.list| <= |e.list|
  {
    && d.list == e.list[..|d.list|]
    && (forall j :: 0 <= j < |d.list| ==> e.attached[j] == d.attached[j])
    && (forall j :: 0 <= j < |d.list| ==> e.kids[j] == if j == parent then d.kids[j] + positions else d.kids[j])
  }

  ghost predicate NodeIsBuilt(d: Dom, e: Dom, n: Node, parent: int)
    requires Aligned(d) && Aligned(e) && |d.list| <= |e.list|
  {
    && Gained(d, e, parent, if n.Comment? then [] else [|d.list|])
    && e.roots == d.roots + (if parent == -1 && n.Element? then [|d.list|] else [])
    && e.failed == (d.failed || (parent == -1 && n.Element? && d.roots != []))
    && Closed(e.kids, |d.list|, |e.list|)
    && (n.Comment? <==> |e.list| == |d.list|)
    && (!n.Comment? ==> [MirrorAt(e, |d.list|, |e.list|)] == Cut(n))
  }

  ghost predicate NodesAreBuilt(d: Dom, e: Dom, nodes: seq<Node>, parent: int, positions: seq<nat>)
    requires Aligned(d) && Aligned(e) && |d.list| <= |e.list|
  {
    && Gained(d, e, parent, positions)
    && e.roots == d.roots && e.failed == d.failed
    && Closed(e.kids, |d.list|, |e.list|)
    && (forall c :: c in positions ==> |d.list| <= c < |e.list|)
    && MirrorsAt(e, positions, |d.list|, |e.list|) == CutAll(nodes)
  }

  /** A node that adds one entry at most. */
  lemma LeafBuilt(d: Dom, n: Node, parent: int)
    requires Aligned(d) && Takes(d, parent) && (n.Element? ==> Hidden(n) && TagSupported(n.tag))
    ensures match n
      case Comment => NodeIsBuilt(d, d, n, parent)
      case Text(data) => NodeIsBuilt(d, Appended(d, Flat(parent, "", data, false)), n, parent)
      case Element(tag, _, _) => NodeIsBuilt(d, Appended(d, Flat(parent, tag, "", true)), n, parent)
  {
    if n.Comment? {
      assert forall j :: 0 <= j < |d.list| ==> d.kids[j] + [] == d.kids[j];
    }
  }

  lemma {:induction false} NodeBuilt(d: Dom, n: Node, parent: int, depth: nat, list: seq<Flat>)
    requires Aligned(d) && Takes(d, parent) && Walked(n, parent, depth, |d.list|) == Ok(list)
    ensures NodeIsBuilt(d, Built(d, list), n, parent)
    decreases n, 1
  {
    if n.Element? && !Hidden(n) {
      VisibleNodeBuilt(d, n, parent, depth, list);
    } else {
      LeafBuilt(d, n, parent);
      if !n.Comment? { BuiltOne(d, list[0]); }
    }
  }

  lemma {:induction false} VisibleNodeBuilt(d: Dom, n: Node, parent: int, depth: nat, list: seq<Flat>)
    requires Aligned(d) && Takes(d, parent) && Walked(n, parent, depth, |d.list|) == Ok(list)
    requires n.Element? && !Hidden(n)
    ensures NodeIsBuilt(d, Built(d, list), n, parent)
    decreases n, 0
  {
    VisibleWalked(n, parent, depth, |d.list|, list);
    var entry := Flat(parent, n.tag, "", false);
    BuiltOne(d, entry);
    BuiltInTwo(d, [entry], list[1..]);
    var positions := NodesBuilt(Appended(d, entry), n.children, |d.list|, depth + 1, list[1..]);
    VisibleBuilt(d, Appended(d, entry), Built(d, list), n, parent, positions);
  }

  lemma VisibleWalked(n: Node, parent: int, depth: nat, start: nat, list: seq<Flat>)
    requires n.Element? && !Hidden(n) && Walked(n, parent, depth, start) == Ok(list)
    ensures TagSupported(n.tag) && list != [] && list == [Flat(parent, n.tag, "", false)] + list[1..]
    ensures WalkedAll(n.children, start, depth + 1, start + 1) == Ok(list[1..])
  {
    var rest := WalkedAll(n.children, start, depth + 1, start + 1).value;
    assert list[1..] == rest;
  }

  /** A visible element, from its own entry and what its children's entries built. */
  lemma VisibleBuilt(d: Dom, one: Dom, e: Dom, n: Node, parent: int, positions: seq<nat>)
    requires n.Element? && !Hidden(n) && TagSupported(n.tag) && Aligned(d) && Takes(d, parent)
    requires one == Appended(d, Flat(parent, n.tag, "", false))
    requires Aligned(e) && |one.list| <= |e.list| && NodesAreBuilt(one, e, n.children, |d.list|, positions)
    ensures NodeIsBuilt(d, e, n, parent)
  {
    var start := |d.list|;
    assert one.kids[start] == [] && [] + positions == positions && |one.list| == start + 1;
    assert e.kids[start] == positions;
    assert e.list[start] == one.list[start] == Flat(parent, n.tag, "", false);
    assert Closed(e.kids, start, |e.list|);
    assert d.list == e.list[..start];
  }

  lemma WalkedInTwo(nodes: seq<Node>, parent: int, depth: nat, start: nat, list: seq<Flat>)
    returns (a: seq<Flat>, b: seq<Flat>)
    requires nodes != [] && WalkedAll(nodes, parent, depth, start) == Ok(list)
    ensures list == a + b
    ensures WalkedAll(nodes[..|nodes| - 1], parent, depth, start) == Ok(a)
    ensures Walked(nodes[|nodes| - 1], parent, depth, start + |a|) == Ok(b)
  {
    a := WalkedAll(nodes[..|nodes| - 1], parent, depth, start).value;
    b := Walked(nodes[|nodes| - 1], parent, depth, start + |a|).value;
  }

  lemma NothingBuilt(d: Dom, parent: int)
    requires Aligned(d) && 0 <= parent
    ensures NodesAreBuilt(d, d, [], parent, [])
  {
    assert forall j :: 0 <= j < |d.list| ==> d.kids[j] + [] == d.kids[j];
  }

  lemma StillTakes(d: Dom, mid: Dom, nodes: seq<Node>, parent: int, positions: seq<nat>)
    requires Aligned(d) && Aligned(mid) && |d.list| <= |mid.list| && Takes(d, parent) && 0 <= parent
    requires NodesAreBuilt(d, mid, nodes, parent, positions)
    ensures Takes(mid, parent)
  {
    assert mid.list[parent] == d.list[parent];
  }

  lemma {:induction false} NodesBuilt(d: Dom, nodes: seq<Node>, parent: int, depth: nat, list: seq<Flat>)
    returns (positions: seq<nat>)
    requires Aligned(d) && Takes(d, parent) && 0 <= parent && WalkedAll(nodes, parent, depth, |d.list|) == Ok(list)
    ensures NodesAreBuilt(d, Built(d, list), nodes, parent, positions)
    decreases nodes, 2
  {
    if nodes == [] {
      positions := [];
      NothingBuilt(d, parent);
    } else {
      var n := |nodes| - 1;
      var a, b := WalkedInTwo(nodes, parent, depth, |d.list|, list);
      BuiltInTwo(d, a, b);
      var before := NodesBuilt(d, nodes[..n], parent, depth, a);
      StillTakes(d, Built(d, a), nodes[..n], parent, before);
      NodeBuilt(Built(d, a), nodes[n], parent, depth, b);
      positions := OneMoreBuilt(d, Built(d, a), Built(d, list), nodes, parent, before);
    }
  }

  lemma OneMoreBuilt(d: Dom, mid: Dom, e: Dom, nodes: seq<Node>, parent: int, before: seq<nat>)
    returns (positions: seq<nat>)
    requires Aligned(d) && Aligned(mid) && Aligned(e) && |d.list| <= |mid.list| <= |e.list| && 0 <= parent < |d.list|
    requires nodes != [] && NodesAreBuilt(d, mid, nodes[..|nodes| - 1], parent, before)
    requires NodeIsBuilt(mid, e, nodes[|nodes| - 1], parent)
    ensures NodesAreBuilt(d, e, nodes, parent, positions)
  {
    var front, last := nodes[..|nodes| - 1], nodes[|nodes| - 1];
    assert Closed(e.kids, |d.list|, |e.list|);
    MirrorsStay(mid, e, before, |d.list|, |mid.list|, |e.list|);
    positions := before + if last.Comment? then [] else [|mid.list|];
    assert CutAll(nodes) == CutAll(front) + Cut(last);
    if last.Comment? {
      assert positions == before && CutAll(front) + [] == CutAll(front);
    } else {
      assert positions[..|before|] == before;
      assert MirrorAt(e, |mid.list|, |e.list|) == Cut(last)[0];
    }
  }

  /** The elements among the document's children. */
  function Elements(nodes: seq<Node>): seq<Node> {
    if nodes == [] then []
    else Elements(nodes[..|nodes| - 1]) + if nodes[|nodes| - 1].Element? then [nodes[|nodes| - 1]] else []
  }

  ghost predicate DocumentIsBuilt(d: Dom, document: seq<Node>)
    requires Aligned(d)
  {
    && |d.roots| == |Elements(document)| && d.failed == (|Elements(document)| > 1)
    && Closed(d.kids, 0, |d.list|)
    && (forall c :: c in d.roots ==> 0 <= c < |d.list|)
    && MirrorsAt(d, d.roots, 0, |d.list|) == CutAll(Elements(document))
  }

  lemma OneMoreRoot(mid: Dom, e: Dom, front: seq<Node>, last: Node)
    requires Aligned(mid) && Aligned(e) && |mid.list| <= |e.list|
    requires DocumentIsBuilt(mid, front) && NodeIsBuilt(mid, e, last, -1)
    ensures DocumentIsBuilt(e, front + [last])
  {
    assert (front + [last])[..|front|] == front;
    assert Closed(e.kids, 0, |e.list|);
    MirrorsStay(mid, e, mid.roots, 0, |mid.list|, |e.list|);
    if last.Element? {
      assert e.roots[..|mid.roots|] == mid.roots;
      assert (Elements(front) + [last])[..|Elements(front)|] == Elements(front);
      assert MirrorAt(e, |mid.list|, |e.list|) == Cut(last)[0];
    } else {
      assert e.roots == mid.roots && Elements(front) + [] == Elements(front);
    }
  }

  lemma OneRootMore(d: Dom, document: seq<Node>, list: seq<Flat>)
    requires Aligned(d) && document != [] && DocumentIsBuilt(d, document[..|document| - 1])
    requires Walked(document[|document| - 1], -1, 1, |d.list|) == Ok(list)
    ensures DocumentIsBuilt(Built(d, list), document)
  {
    var n := |document| - 1;
    NodeBuilt(d, document[n], -1, 1, list);
    OneMoreRoot(d, Built(d, list), document[..n], document[n]);
    assert document[..n] + [document[n]] == document;
  }

  /** Flattening and rebuilding give the page back: for every page within the limits the
      mirror is the page's elements and texts with comments dropped and hidden elements cut
      to themselves. The browser throws exactly when the document has more than one root
      element, which no parsed page has. */
  lemma {:induction false} RoundTrip(document: seq<Node>)
    requires Tree(document).Ok?
    ensures DocumentIsBuilt(Built(EMPTY, Tree(document).value), document)
    decreases |document|
  {
    if document != [] {
      var n := |document| - 1;
      var a, b := WalkedInTwo(document, -1, 1, 0, Tree(document).value);
      RoundTrip(document[..n]);
      BuiltInTwo(EMPTY, a, b);
      OneRootMore(Built(EMPTY, a), document, b);
    }
  }

  // ---------------------------------------------------------------- what does not cross

  /** Elements that run, load, embed or take input, or have content of their own kind. */
  predicate Active(tag: string) {
    || tag == "head" || tag == "script" || tag == "style" || tag == "iframe" || tag == "frame" || tag == "frameset"
    || tag == "object" || tag == "embed" || tag == "template" || tag == "noscript" || tag == "svg" || tag == "math"
    || tag == "canvas" || tag == "audio" || tag == "video" || tag == "source" || tag == "track" || tag == "link"
    || tag == "meta" || tag == "base" || tag == "form" || tag == "input" || tag == "textarea" || tag == "select"
    || tag == "option" || tag == "button"
  }

  lemma HiddenMeans(n: Node)
    requires n.Element?
    ensures Hidden(n) <==> n.foreign || Active(n.tag)
  {
  }

  /** Active elements stand in a mirror without content, at any depth. */
  predicate Inert(m: Mirror)
    decreases m
  {
    m.MirrorElement? ==> (Active(m.tag) ==> m.children == []) && forall c | c in m.children :: Inert(c)
  }

  /** Every other element keeps its children. */
  lemma {:induction false} CutMeans(n: Node)
    requires n.Element?
    ensures Cut(n) == [MirrorElement(n.tag, if n.foreign || Active(n.tag) then [] else CutAll(n.children))]
  {
    HiddenMeans(n);
  }

  lemma {:induction false} CutIsInert(n: Node)
    ensures forall m | m in Cut(n) :: Inert(m)
    decreases n, 0
  {
    if n.Element? {
      HiddenMeans(n);
      if !Hidden(n) { CutAllIsInert(n.children); }
    }
  }

  lemma {:induction false} CutAllIsInert(nodes: seq<Node>)
    ensures forall m | m in CutAll(nodes) :: Inert(m)
    decreases nodes, 1
  {
    if nodes != [] {
      CutAllIsInert(nodes[..|nodes| - 1]);
      CutIsInert(nodes[|nodes| - 1]);
    }
  }

  /** No active subtree crosses: whatever the page, the mirror built from its list is inert. */
  lemma NothingActiveCrosses(document: seq<Node>)
    requires Tree(document).Ok?
    ensures var d := Built(EMPTY, Tree(document).value);
      && Closed(d.kids, 0, |d.list|) && (forall c :: c in d.roots ==> 0 <= c < |d.list|)
      && forall m | m in MirrorsAt(d, d.roots, 0, |d.list|) :: Inert(m)
  {
    RoundTrip(document);
    CutAllIsInert(Elements(document));
  }

  /** Sibling elements keep their order and number, so positions among them agree. */
  lemma {:induction false} PositionsAgree(nodes: seq<Node>)
    ensures MirrorTags(CutAll(nodes)) == Tags(nodes)
    decreases |nodes|
  {
    if nodes != [] {
      var n := |nodes| - 1;
      PositionsAgree(nodes[..n]);
      var front, last := CutAll(nodes[..n]), Cut(nodes[n]);
      if last == [] {
        assert front + [] == front && Tags(nodes[..n]) + [] == Tags(nodes[..n]);
      } else {
        assert (front + last)[..|front|] == front && (front + last)[|front|] == last[0];
      }
    }
  }

  function Tags(nodes: seq<Node>): seq<string> {
    if nodes == [] then []
    else Tags(nodes[..|nodes| - 1]) + if nodes[|nodes| - 1].Element? then [nodes[|nodes| - 1].tag] else []
  }

  function MirrorTags(mirrors: seq<Mirror>): seq<string> {
    if mirrors == [] then []
    else MirrorTags(mirrors[..|mirrors| - 1])
         + if mirrors[|mirrors| - 1].MirrorElement? then [mirrors[|mirrors| - 1].tag] else []
  }

  // ---------------------------------------------------------------- the limits

  /** The entries of a node, the levels below it that are walked, and whether every
      element walked has a supported name. */
  function Entries(n: Node): nat
    decreases n, 0
  {
    if n.Comment? then 0 else if n.Text? || Hidden(n) then 1 else 1 + EntriesOf(n.children)
  }

  function EntriesOf(nodes: seq<Node>): nat
    decreases nodes, 1
  {
    if nodes == [] then 0 else EntriesOf(nodes[..|nodes| - 1]) + Entries(nodes[|nodes| - 1])
  }

  /** Levels from a node's own down to the deepest node walked. */
  function Levels(n: Node): nat
    decreases n, 0
  {
    if !n.Element? || Hidden(n) then 1 else 1 + LevelsOf(n.children)
  }

  function LevelsOf(nodes: seq<Node>): nat
    decreases nodes, 1
  {
    if nodes == [] then 0 else Max(LevelsOf(nodes[..|nodes| - 1]), Levels(nodes[|nodes| - 1]))
  }

  predicate Supported(n: Node)
    decreases n, 0
  {
    n.Element? ==> TagSupported(n.tag) && (!Hidden(n) ==> AllSupported(n.children))
  }

  predicate AllSupported(nodes: seq<Node>)
    decreases nodes, 1
  {
    nodes == [] || (AllSupported(nodes[..|nodes| - 1]) && Supported(nodes[|nodes| - 1]))
  }

  /** The entries made before the last node of a walk. */
  function BeforeLast(n: Node): (k: nat)
    ensures k <= Entries(n)
    decreases n, 0
  {
    if !n.Element? || Hidden(n) || n.children == [] then 0 else 1 + BeforeLastOf(n.children)
  }

  function BeforeLastOf(nodes: seq<Node>): (k: nat)
    requires nodes != []
    ensures k <= EntriesOf(nodes)
    decreases nodes, 1
  {
    EntriesOf(nodes[..|nodes| - 1]) + BeforeLast(nodes[|nodes| - 1])
  }

  lemma {:induction false} NodeLimits(n: Node, parent: int, depth: nat, start: nat)
    ensures var walked := Walked(n, parent, depth, start);
      && (walked.Ok? <==> start + BeforeLast(n) < MAX_NODES && depth + Levels(n) - 1 <= MAX_DEPTH && Supported(n))
      && (walked.Ok? ==> |walked.value| == Entries(n))
    decreases n, 0
  {
    if n.Element? && !Hidden(n) && depth <= MAX_DEPTH && start < MAX_NODES {
      NodesLimits(n.children, start, depth + 1, start + 1);
    }
  }

  lemma {:induction false} NodesLimits(nodes: seq<Node>, parent: int, depth: nat, start: nat)
    requires depth <= MAX_DEPTH + 1
    ensures var walked := WalkedAll(nodes, parent, depth, start);
      && (walked.Ok? <==> (nodes != [] ==> start + BeforeLastOf(nodes) < MAX_NODES)
                          && depth + LevelsOf(nodes) - 1 <= MAX_DEPTH && AllSupported(nodes))
      && (walked.Ok? ==> |walked.value| == EntriesOf(nodes))
    decreases nodes, 1
  {
    if nodes != [] {
      var n := |nodes| - 1;
      NodesLimits(nodes[..n], parent, depth, start);
      var front := WalkedAll(nodes[..n], parent, depth, start);
      if front.Ok? { NodeLimits(nodes[n], parent, depth, start + |front.value|); }
    }
  }

  /** The walk accepts exactly the pages of supported elements at most 100 levels deep whose
      last node is reached with fewer than 12,000 entries made, and lists every entry. */
  lemma LimitsAreExact(document: seq<Node>)
    ensures Tree(document).Ok? <==>
      && AllSupported(document) && LevelsOf(document) <= 100
      && (document != [] ==> BeforeLastOf(document) < 12000)
    ensures Tree(document).Ok? ==> |Tree(document).value| == EntriesOf(document)
  {
    NodesLimits(document, -1, 1, 0);
  }
}
