/**
  Serialisation of an element chain into an XPath 1.0 location path in
  abbreviated syntax (section 2.5 of the W3C XPath 1.0 Recommendation),
  as `String`, `Path`, `Tag`, `TagPos` and `Filters` of base/Element.go do.
  Defaults for the path and the tag are resolved here, at render time.
 */
module Compiler {
  import opened Wrappers
  import opened Text
  import opened Elements

  /**
    The `[n]` positional predicate the source appends after a tag or a
    filter: present exactly for positive `p`, and then the number inside the
    brackets reads back as `p`.
   */
  function PosSuffix(p: int): (r: string)
    ensures r == "" <==> p <= 0
    ensures p > 0 ==> |r| >= 3 && r[0] == '[' && r[|r| - 1] == ']'
  {
    if p > 0 then "[" + Decimal(p) + "]" else ""
  }

  /** The number inside a positional predicate is a canonical numeral that reads back as the position. */
  lemma PosSuffixNumeral(p: int)
    requires p > 0
    ensures var r := PosSuffix(p); IsCanonicalDecimal(r[1..|r| - 1]) && ParseDecimal(r[1..|r| - 1]) == p
  {
    var r := PosSuffix(p);
    assert r[1..|r| - 1] == Decimal(p);
  }

  /** `Path`: an explicit path verbatim, else "//" for a top node and "/" below a parent. */
  function PathOf(e: Element): (r: string)
    ensures |r| > 0
    ensures e.path != "" ==> r == e.path
    ensures e.path == "" ==> (r == "//" <==> !e.hasParent) && (r == "/" <==> e.hasParent)
  {
    if !e.hasParent && e.path == "" then "//"
    else if e.hasParent && e.path == "" then "/"
    else e.path
  }

  /** `TagPos`: the positional predicate on the tag. */
  function TagPosOf(e: Element): (r: string)
    ensures r == "" <==> e.tagPos <= 0
  {
    PosSuffix(e.tagPos)
  }

  /** `Tag`: the tag, or the wildcard name test `*` when it is empty, then its position. */
  function TagOf(e: Element): string {
    (if e.tag == "" then "*" else e.tag) + TagPosOf(e)
  }

  /** The tag step is never empty: the tag, or `*` for an empty tag, then its position. */
  lemma TagShape(e: Element)
    ensures |TagOf(e)| > 0
    ensures e.tag != "" ==> e.tag <= TagOf(e)
    ensures e.tag == "" ==> TagOf(e)[0] == '*'
    ensures EndsWith(TagOf(e), TagPosOf(e))
  {
    var name := if e.tag == "" then "*" else e.tag;
    assert TagOf(e)[..|name|] == name;
    assert TagOf(e)[|name|..] == TagPosOf(e);
  }

  /** One predicate of bucket `k`, followed by its positional predicate. */
  function Clause(k: Kind, f: Filter): (r: string)
    ensures |r| >= 2 && r[0] == '['
    ensures EndsWith(r, PosSuffix(f.position))
  {
    var core := match k
      case AttributeKind => "[@" + f.key + "=\"" + f.value + "\"]"
      case ContainsKind => "[contains(" + f.key + ",\"" + f.value + "\")]"
      case EqualKind => "[" + f.key + "=\"" + f.value + "\"]";
    var r := core + PosSuffix(f.position);
    assert r[|core|..] == PosSuffix(f.position);
    r
  }

  /** The predicates of one bucket, in insertion order (`strings.Join` with ""). */
  function Clauses(k: Kind, fs: seq<Filter>): (r: string)
    ensures r == "" <==> fs == []
  {
    if fs == [] then "" else Clause(k, fs[0]) + Clauses(k, fs[1..])
  }

  /** `Filters`: attribute predicates, then contains predicates, then equal predicates. */
  function FiltersOf(e: Element): (r: string)
    ensures r == "" <==> BucketsOf(e) == NoFilters
  {
    var b := BucketsOf(e);
    Clauses(AttributeKind, b.attributes) + Clauses(ContainsKind, b.contains) + Clauses(EqualKind, b.equals)
  }

  /** The text one element contributes on its own: `Path() + Tag() + Filters()`. */
  function StepString(e: Element): string {
    PathOf(e) + TagOf(e) + FiltersOf(e)
  }

  /** `String`: this element's step followed by the rendering of its child, if any. */
  function Render(e: Element): string
    decreases e
  {
    match e.child
    case None => StepString(e)
    case Some(c) => StepString(e) + Render(c)
  }

  /** The elements of the chain from `e` down to its last descendant. */
  function Steps(e: Element): (ns: seq<Element>)
    ensures |ns| >= 1 && ns[0] == e
    ensures forall i :: 0 <= i < |ns| - 1 ==> ns[i].child == Some(ns[i + 1])
    ensures ns[|ns| - 1].child.None?
    decreases e
  {
    match e.child
    case None => [e]
    case Some(c) => [e] + Steps(c)
  }

  function ConcatSteps(ns: seq<Element>): string {
    if ns == [] then "" else StepString(ns[0]) + ConcatSteps(ns[1..])
  }

  /**
    The rendering is the concatenation of the steps of the chain, each
    resolved on its own.
   */
  lemma {:induction false} RenderIsStepConcat(e: Element)
    ensures Render(e) == ConcatSteps(Steps(e))
    decreases e
  {
    match e.child
    case None =>
    case Some(c) =>
      RenderIsStepConcat(c);
      assert Steps(e)[1..] == Steps(c);
  }

  lemma RenderUnfold(prefix: string, e: Element)
    requires e.child.Some?
    ensures prefix + Render(e) == (prefix + StepString(e)) + Render(e.child.value)
  {
  }

  /**
    An iterative rendering that walks the chain top to bottom; it produces
    exactly what the recursive `String` produces.
   */
  method Compile(e: Element) returns (s: string)
    ensures s == Render(e)
  {
    s := "";
    var cur := e;
    while cur.child.Some?
      invariant s + Render(cur) == Render(e)
      decreases cur
    {
      RenderUnfold(s, cur);
      s := s + StepString(cur);
      cur := cur.child.value;
    }
    s := s + StepString(cur);
  }
}
