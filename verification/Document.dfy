/** The inert mirror of a page that selectors run on: a finite ordered tree. Nodes are
    numbered so that a parent comes before its children and siblings are in order;
    node 0 is the document. */
module Document {
  datatype Node = Root | Text | Element(tag: string, attrs: map<string, string>)

  datatype Doc = Doc(nodes: seq<Node>, parents: seq<nat>) {
    ghost predicate Valid() {
      && 0 < |nodes| == |parents|
      && nodes[0].Root?
      && forall i :: 0 < i < |nodes| ==> parents[i] < i && !nodes[i].Root? && !nodes[parents[i]].Text?
    }

    function Size(): nat { |nodes| }

    predicate Contains(i: nat) { i < Size() }

    function Parent(i: nat): nat
      requires Valid() && 0 < i < Size()
    {
      parents[i]
    }

    function Ancestors(i: nat): (above: set<nat>)
      requires Valid() && i < Size()
      ensures forall a :: a in above ==> a < i
    {
      if i == 0 then {} else {Parent(i)} + Ancestors(Parent(i))
    }

    function Attr(i: nat, name: string): (value: string)
      requires i < Size()
    {
      if HasAttr(i, name) then nodes[i].attrs[name] else ""
    }

    predicate HasAttr(i: nat, name: string)
      requires i < Size()
    {
      nodes[i].Element? && name in nodes[i].attrs
    }
  }

  /** Everything but the document is below it. */
  lemma {:induction false} DocumentIsAbove(d: Doc, i: nat)
    requires d.Valid() && 0 < i < d.Size()
    ensures 0 in d.Ancestors(i)
    decreases i
  {
    if d.Parent(i) != 0 { DocumentIsAbove(d, d.Parent(i)); }
  }
}
