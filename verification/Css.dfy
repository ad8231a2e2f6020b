/** The subset of CSS selectors the picker writes, with the meaning the Selectors
    standards give it: an element is matched from its own compound outwards, through its
    ancestors. */
module Css {
  import opened Document

  datatype Tag = Any | Named(name: string)

  datatype Simple =
    | Class(name: string)
    | Id(value: string)
    | Attribute(name: string)
    | AttributeIs(name: string, value: string)
    | NthOfType(n: nat)
    | Has(selectors: seq<Complex>)

  datatype Compound = Compound(tag: Tag, simples: seq<Simple>)

  datatype Combinator = Descendant | Child

  /** A compound and how it hangs under what precedes it: the previous compound or, for
      the first, the scope. */
  datatype Link = Link(combinator: Combinator, compound: Compound)

  datatype Complex = Complex(links: seq<Link>)

  /** Space, tab, line feed, carriage return and form feed (Selectors Level 4, section 3.1). */
  predicate IsSpace(c: char) { c == ' ' || c == '\t' || c == '\n' || c == '\r' || c == '\U{000C}' }

  /** Whether `word` stands in `text` at i, between separators. */
  predicate WordAt(text: string, word: string, space: char -> bool, i: int) {
    && 0 <= i <= |text| - |word|
    && text[i..i + |word|] == word
    && (i == 0 || space(text[i - 1]))
    && (i + |word| == |text| || space(text[i + |word|]))
  }

  /** Whether `word` is one of the words of `text`. */
  ghost predicate HasWord(text: string, word: string, space: char -> bool) {
    && (forall j | 0 <= j < |word| :: !space(word[j]))
    && exists i :: WordAt(text, word, space, i)
  }

  predicate TagMatches(d: Doc, e: nat, tag: Tag)
    requires e < d.Size()
  {
    d.nodes[e].Element? && (tag.Named? ==> d.nodes[e].tag == tag.name)
  }

  /** The position of an element among the siblings of its type (Selectors Level 3,
      section 6.6.5.4). */
  function IndexOfType(d: Doc, e: nat): nat
    requires d.Valid() && 0 < e < d.Size() && d.nodes[e].Element?
  {
    1 + |set j: nat | 0 < j < e && d.Parent(j) == d.Parent(e) && TagMatches(d, j, Named(d.nodes[e].tag))|
  }

  ghost predicate SimpleMatches(d: Doc, e: nat, s: Simple)
    requires d.Valid() && 0 < e < d.Size() && d.nodes[e].Element?
    decreases s
  {
    match s
    case Class(name) => d.HasAttr(e, "class") && HasWord(d.Attr(e, "class"), name, IsSpace)
    case Id(value) => d.HasAttr(e, "id") && d.Attr(e, "id") == value
    case Attribute(name) => d.HasAttr(e, name)
    case AttributeIs(name, value) => d.HasAttr(e, name) && d.Attr(e, name) == value
    case NthOfType(n) => IndexOfType(d, e) == n
    case Has(selectors) =>
      exists c, i: nat {:trigger c in selectors, d.Contains(i)} | c in selectors && d.Contains(i) ::
          Matches(d, e, c.links, i)
  }

  ghost predicate CompoundMatches(d: Doc, e: nat, c: Compound)
    requires d.Valid() && e < d.Size()
    decreases c
  {
    0 < e && TagMatches(d, e, c.tag) && forall s | s in c.simples :: SimpleMatches(d, e, s)
  }

  ghost predicate LinkMatches(d: Doc, e: nat, link: Link)
    requires d.Valid() && e < d.Size()
    decreases link
  {
    CompoundMatches(d, e, link.compound)
  }

  /** Whether e matches a complex selector relative to a scope node (Selectors Level 4,
      section 4.5): the compounds are found on e and its ancestors, the scope above all. */
  ghost predicate Matches(d: Doc, scope: nat, links: seq<Link>, e: nat)
    requires d.Valid() && scope < d.Size() && e < d.Size()
    decreases links
  {
    if links == [] then e == scope
    else
      var n := |links| - 1;
      && 0 < e && LinkMatches(d, e, links[n])
      && match links[n].combinator
         case Child => Matches(d, scope, links[..n], d.Parent(e))
         case Descendant => exists a | a in d.Ancestors(e) :: Matches(d, scope, links[..n], a)
  }

  ghost predicate MatchesAny(d: Doc, scope: nat, selectors: seq<Complex>, e: nat)
    requires d.Valid() && scope < d.Size() && e < d.Size()
  {
    exists c | c in selectors :: Matches(d, scope, c.links, e)
  }

  /** What querySelectorAll returns on the document. */
  ghost function Select(d: Doc, selectors: seq<Complex>): set<nat>
    requires d.Valid()
  {
    set e: nat | e < d.Size() && MatchesAny(d, 0, selectors, e)
  }
}
