/**
  One step of an XPath location path as the selector builder of
  base/Element.go holds it, and the fluent builder operations on it.

  Go's `*Element` pointers become immutable values: a builder returns the
  updated element instead of mutating it, the `child` pointer becomes an
  optional element (so a chain is finite and acyclic by construction), and
  the `parent` pointer, only ever tested against nil, becomes `hasParent`.
 */
module Elements {
  import opened Wrappers
  import opened Text

  /** The three predicate buckets, keyed "attribute", "contains" and "equal" in the source. */
  datatype Kind = AttributeKind | ContainsKind | EqualKind

  /**
    One predicate entry: `key` is the attribute name of an attribute filter
    or the "option" (`@class`, `text()`, `.`) of a contains or equal filter.
   */
  datatype Filter = Filter(key: string, value: string, position: int)

  /** The initialised filter map: one ordered bucket per kind. */
  datatype Buckets = Buckets(attributes: seq<Filter>, contains: seq<Filter>, equals: seq<Filter>)
  {
    function Bucket(k: Kind): seq<Filter> {
      match k
      case AttributeKind => attributes
      case ContainsKind => contains
      case EqualKind => equals
    }

    /** Appends `f` to the bucket of kind `k`; the other two buckets stay as they are. */
    function Append(k: Kind, f: Filter): (b: Buckets)
      ensures b.Bucket(k) == Bucket(k) + [f]
      ensures forall k' :: k' != k ==> b.Bucket(k') == Bucket(k')
    {
      match k
      case AttributeKind => this.(attributes := attributes + [f])
      case ContainsKind => this.(contains := contains + [f])
      case EqualKind => this.(equals := equals + [f])
    }
  }

  const NoFilters := Buckets([], [], [])

  /**
    An element: `filters` is `None` while the source's map is still nil,
    `child` is `None` while the child pointer is nil.
   */
  datatype Element = Element(
    path: string,
    tag: string,
    tagPos: int,
    filters: Option<Buckets>,
    child: Option<Element>,
    hasParent: bool)

  /** Go's zero value `var e Element`. */
  const Blank := Element("", "", 0, None, None, false)

  /** The buckets an element renders from: a nil map reads as three empty buckets. */
  function BucketsOf(e: Element): Buckets {
    e.filters.GetOr(NoFilters)
  }

  /** Everything but the filter map is the same in `e` and `r`. */
  predicate SameButFilters(e: Element, r: Element) {
    r.path == e.path && r.tag == e.tag && r.tagPos == e.tagPos && r.child == e.child && r.hasParent == e.hasParent
  }

  /** Every child in the chain below `e` has its parent set. */
  predicate WellLinked(e: Element) {
    match e.child
    case None => true
    case Some(c) => c.hasParent && WellLinked(c)
  }

  /** `AddChild`: replaces the child and marks it as having a parent. */
  function AddChild(e: Element, c: Element): (r: Element)
    ensures r.child.Some? && r.child.value.hasParent
    ensures r.child.value.(hasParent := c.hasParent) == c
    ensures r.path == e.path && r.tag == e.tag && r.tagPos == e.tagPos
    ensures r.filters == e.filters && r.hasParent == e.hasParent
    ensures WellLinked(c) ==> WellLinked(r)
  {
    e.(child := Some(c.(hasParent := true)))
  }

  /** `init`: creates the three empty buckets unless they already exist. */
  function Init(e: Element): (r: Element)
    ensures r.filters.Some?
    ensures BucketsOf(r) == BucketsOf(e)
    ensures e.filters.Some? ==> r == e
    ensures SameButFilters(e, r)
  {
    if e.filters.None? then e.(filters := Some(NoFilters)) else e
  }

  /** `ByPath`: sets the path prefix, trimmed of white space. */
  function ByPath(e: Element, path: string): (r: Element)
    ensures r.path == TrimSpace(path)
    ensures r.tag == e.tag && r.tagPos == e.tagPos && r.filters == e.filters
    ensures r.child == e.child && r.hasParent == e.hasParent
  {
    e.(path := TrimSpace(path))
  }

  /** `ByTag`: sets the tag, trimmed of white space, and its position. */
  function ByTag(e: Element, tag: string, tagPos: int): (r: Element)
    ensures r.tag == TrimSpace(tag) && r.tagPos == tagPos
    ensures r.path == e.path && r.filters == e.filters
    ensures r.child == e.child && r.hasParent == e.hasParent
  {
    e.(tag := TrimSpace(tag), tagPos := tagPos)
  }

  /**
    The shared shape of `ByAttribute`, `ByContains` and `ByEqual`: initialise
    the buckets, then append one filter to the bucket of kind `k`.
   */
  function AddFilter(e: Element, k: Kind, key: string, value: string, position: int): (r: Element)
    ensures r.filters.Some?
    ensures BucketsOf(r).Bucket(k) == BucketsOf(e).Bucket(k) + [Filter(key, value, position)]
    ensures forall k' :: k' != k ==> BucketsOf(r).Bucket(k') == BucketsOf(e).Bucket(k')
    ensures SameButFilters(e, r)
  {
    var i := Init(e);
    i.(filters := Some(BucketsOf(i).Append(k, Filter(key, value, position))))
  }

  /** `ByAttribute`: adds an `[@attribute="value"]` predicate. */
  function ByAttribute(e: Element, attribute: string, value: string, position: int): (r: Element)
    ensures r.filters.Some?
    ensures BucketsOf(r).attributes == BucketsOf(e).attributes + [Filter(attribute, value, position)]
    ensures BucketsOf(r).contains == BucketsOf(e).contains
    ensures BucketsOf(r).equals == BucketsOf(e).equals
    ensures SameButFilters(e, r)
  {
    AddFilter(e, AttributeKind, attribute, value, position)
  }

  /** `ByContains`: adds a `[contains(option,"value")]` predicate. */
  function ByContains(e: Element, option: string, value: string, position: int): (r: Element)
    ensures r.filters.Some?
    ensures BucketsOf(r).contains == BucketsOf(e).contains + [Filter(option, value, position)]
    ensures BucketsOf(r).attributes == BucketsOf(e).attributes
    ensures BucketsOf(r).equals == BucketsOf(e).equals
    ensures SameButFilters(e, r)
  {
    AddFilter(e, ContainsKind, option, value, position)
  }

  /** `ByEqual`: adds an `[option="value"]` predicate. */
  function ByEqual(e: Element, option: string, value: string, position: int): (r: Element)
    ensures r.filters.Some?
    ensures BucketsOf(r).equals == BucketsOf(e).equals + [Filter(option, value, position)]
    ensures BucketsOf(r).attributes == BucketsOf(e).attributes
    ensures BucketsOf(r).contains == BucketsOf(e).contains
    ensures SameButFilters(e, r)
  {
    AddFilter(e, EqualKind, option, value, position)
  }

  /** `init` is a no-op once the buckets exist, so it never clears earlier filters. */
  lemma InitIdempotent(e: Element)
    ensures Init(Init(e)) == Init(e)
  {
  }

  /** Filters of two different kinds can be added in either order. */
  lemma AddFilterCommutes(e: Element, k1: Kind, f1: Filter, k2: Kind, f2: Filter)
    requires k1 != k2
    ensures AddFilter(AddFilter(e, k1, f1.key, f1.value, f1.position), k2, f2.key, f2.value, f2.position)
         == AddFilter(AddFilter(e, k2, f2.key, f2.value, f2.position), k1, f1.key, f1.value, f1.position)
  {
    var a := AddFilter(AddFilter(e, k1, f1.key, f1.value, f1.position), k2, f2.key, f2.value, f2.position);
    var b := AddFilter(AddFilter(e, k2, f2.key, f2.value, f2.position), k1, f1.key, f1.value, f1.position);
    assert BucketsOf(a).attributes == BucketsOf(b).attributes;
    assert BucketsOf(a).contains == BucketsOf(b).contains;
    assert BucketsOf(a).equals == BucketsOf(b).equals;
  }

  /** Re-attaching a child is last-write-wins: the first child is gone. */
  lemma AddChildLastWins(e: Element, c1: Element, c2: Element)
    ensures AddChild(AddChild(e, c1), c2) == AddChild(e, c2)
  {
  }

  /** Every builder keeps a chain well linked, and the zero value is well linked. */
  lemma BuildersKeepWellLinked(e: Element, k: Kind, s: string, v: string, n: int)
    requires WellLinked(e)
    ensures WellLinked(Blank)
    ensures WellLinked(ByPath(e, s)) && WellLinked(ByTag(e, s, n))
    ensures WellLinked(AddFilter(e, k, s, v, n)) && WellLinked(Init(e))
  {
  }
}
