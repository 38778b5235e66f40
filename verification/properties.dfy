/**
  Properties of the selector builder that relate several operations: how
  defaults resolve along a chain, that predicate order is fixed by bucket
  whatever order the builder calls came in, and how much of a filter its
  rendered clause determines.
 */
module Properties {
  import opened Wrappers
  import opened Text
  import opened Elements
  import opened Compiler

  // ---------------------------------------------------------------------
  // Rendering a chain

  /** `String` is `Path() + Tag() + Filters()`, then the child's `String` if there is a child. */
  lemma RenderComposition(e: Element)
    ensures e.child.None? ==> Render(e) == PathOf(e) + TagOf(e) + FiltersOf(e)
    ensures e.child.Some? ==> Render(e) == PathOf(e) + TagOf(e) + FiltersOf(e) + Render(e.child.value)
  {
  }

  /**
    Writing the resolved default into the path field, as `Path()` does on
    the copy it renders, leaves the rendering unchanged.
   */
  lemma PathCacheInvisible(e: Element)
    ensures Render(e.(path := PathOf(e))) == Render(e)
  {
  }

  /** A chain is well linked exactly when every element below the top has a parent. */
  lemma {:induction false} WellLinkedSteps(e: Element)
    ensures WellLinked(e) <==> forall i :: 0 < i < |Steps(e)| ==> Steps(e)[i].hasParent
    decreases e
  {
    match e.child
    case None =>
    case Some(c) =>
      WellLinkedSteps(c);
      assert Steps(e) == [e] + Steps(c);
      assert Steps(e)[1] == c;
      forall i | 0 < i < |Steps(c)|
        ensures Steps(c)[i] == Steps(e)[i + 1]
      {
      }
  }

  /**
    In a well-linked chain the top step resolves an empty path to "//" when
    it has no parent, and every lower step resolves an empty path to "/".
   */
  lemma ChainPaths(e: Element)
    requires WellLinked(e)
    ensures PathOf(e) == (if e.path != "" then e.path else if e.hasParent then "/" else "//")
    ensures forall i :: 0 < i < |Steps(e)| ==>
      PathOf(Steps(e)[i]) == (if Steps(e)[i].path == "" then "/" else Steps(e)[i].path)
  {
    WellLinkedSteps(e);
  }

  /** A whitespace-only `ByPath` argument falls back to the default prefix. */
  lemma ByPathBlankDefaults(e: Element, path: string)
    requires AllSpace(path)
    ensures ByPath(e, path).path == ""
    ensures PathOf(ByPath(e, path)) == (if e.hasParent then "/" else "//")
  {
    TrimSpaceOfSpace(path);
  }

  /** A non-blank `ByPath` is emitted trimmed and verbatim, with or without a parent. */
  lemma ByPathVerbatim(e: Element, path: string, hasParent: bool)
    requires TrimSpace(path) != ""
    ensures PathOf(ByPath(e, path).(hasParent := hasParent)) == TrimSpace(path)
    ensures PathOf(AddChild(e, ByPath(e, path)).child.value) == TrimSpace(path)
  {
  }

  /** `ByTag` sets what `Tag()` renders: the trimmed tag or `*`, then `[n]` for positive `n`. */
  lemma ByTagRender(e: Element, tag: string, tagPos: int)
    ensures TagOf(ByTag(e, tag, tagPos)) == (if TrimSpace(tag) == "" then "*" else TrimSpace(tag)) + PosSuffix(tagPos)
    ensures AllSpace(tag) ==> TagOf(ByTag(e, tag, tagPos)) == "*" + PosSuffix(tagPos)
  {
    if AllSpace(tag) {
      TrimSpaceOfSpace(tag);
    }
  }

  /** The rendered chain after `AddChild` is the parent's step, then the child rendered below a parent. */
  lemma RenderAddChild(e: Element, c: Element)
    ensures Render(AddChild(e, c)) == StepString(e) + Render(c.(hasParent := true))
    ensures c.path == "" ==> PathOf(AddChild(e, c).child.value) == "/"
  {
  }

  /** Only the last attached child appears in the output. */
  lemma RenderLastChildWins(e: Element, c1: Element, c2: Element)
    ensures Render(AddChild(AddChild(e, c1), c2)) == StepString(e) + Render(c2.(hasParent := true))
  {
    AddChildLastWins(e, c1, c2);
    RenderAddChild(e, c2);
  }

  // ---------------------------------------------------------------------
  // Predicate order

  /** One call of `ByAttribute`, `ByContains` or `ByEqual`. */
  datatype FilterCall = FilterCall(kind: Kind, filter: Filter)

  /** Performs the calls of `calls` on `e`, first to last. */
  function ApplyCalls(e: Element, calls: seq<FilterCall>): Element
    decreases |calls|
  {
    if calls == [] then e
    else
      var c := calls[0];
      ApplyCalls(AddFilter(e, c.kind, c.filter.key, c.filter.value, c.filter.position), calls[1..])
  }

  /** The filters of the calls of kind `k`, in call order. */
  function Select(calls: seq<FilterCall>, k: Kind): seq<Filter> {
    if calls == [] then []
    else (if calls[0].kind == k then [calls[0].filter] else []) + Select(calls[1..], k)
  }

  /**
    Each bucket receives exactly the filters of its own kind, appended in
    call order; nothing but the filter map changes.
   */
  lemma {:induction false} ApplyCallsBuckets(e: Element, calls: seq<FilterCall>)
    ensures forall k :: BucketsOf(ApplyCalls(e, calls)).Bucket(k) == BucketsOf(e).Bucket(k) + Select(calls, k)
    decreases |calls|
  {
    if calls == [] {
      forall k
        ensures BucketsOf(ApplyCalls(e, calls)).Bucket(k) == BucketsOf(e).Bucket(k) + Select(calls, k)
      {
        assert BucketsOf(e).Bucket(k) + [] == BucketsOf(e).Bucket(k);
      }
    } else {
      var c := calls[0];
      var e1 := AddFilter(e, c.kind, c.filter.key, c.filter.value, c.filter.position);
      ApplyCallsBuckets(e1, calls[1..]);
      ApplyFirst(e, calls);
      forall k
        ensures BucketsOf(ApplyCalls(e, calls)).Bucket(k) == BucketsOf(e).Bucket(k) + Select(calls, k)
      {
        FirstCallBucket(e, c, k);
        SelectSplit(calls, k);
        AppendInTurn(BucketsOf(e).Bucket(k), BucketsOf(e1).Bucket(k), BucketsOf(ApplyCalls(e, calls)).Bucket(k),
                     Select([c], k), Select(calls[1..], k), Select(calls, k));
      }
    }
  }

  lemma ApplyFirst(e: Element, calls: seq<FilterCall>)
    requires calls != []
    ensures ApplyCalls(e, calls)
         == ApplyCalls(AddFilter(e, calls[0].kind, calls[0].filter.key, calls[0].filter.value, calls[0].filter.position), calls[1..])
  {
  }

  /** A call puts its filter into its own bucket and nothing into the others. */
  lemma FirstCallBucket(e: Element, c: FilterCall, k: Kind)
    ensures BucketsOf(AddFilter(e, c.kind, c.filter.key, c.filter.value, c.filter.position)).Bucket(k)
         == BucketsOf(e).Bucket(k) + Select([c], k)
  {
    assert [c][1..] == [];
  }

  lemma SelectSplit(calls: seq<FilterCall>, k: Kind)
    requires calls != []
    ensures Select(calls, k) == Select([calls[0]], k) + Select(calls[1..], k)
  {
    assert [calls[0]][1..] == [];
  }

  lemma AppendInTurn(a: seq<Filter>, b: seq<Filter>, r: seq<Filter>, here: seq<Filter>, rest: seq<Filter>, all: seq<Filter>)
    requires b == a + here && r == b + rest && all == here + rest
    ensures r == a + all
  {
  }

  /** Applying calls changes nothing but the filter map, and initialises it when there is a call. */
  lemma {:induction false} ApplyCallsFrame(e: Element, calls: seq<FilterCall>)
    ensures calls != [] ==> ApplyCalls(e, calls).filters.Some?
    ensures calls == [] ==> ApplyCalls(e, calls) == e
    ensures SameButFilters(e, ApplyCalls(e, calls))
    decreases |calls|
  {
    if calls != [] {
      var c := calls[0];
      var e1 := AddFilter(e, c.kind, c.filter.key, c.filter.value, c.filter.position);
      ApplyCallsFrame(e1, calls[1..]);
    }
  }

  /** `Filters()` of the rendered buckets, as the three clause runs in fixed kind order. */
  function BucketClauses(b: Buckets): string {
    Clauses(AttributeKind, b.attributes) + Clauses(ContainsKind, b.contains) + Clauses(EqualKind, b.equals)
  }

  /** The buckets built from a blank element hold exactly the calls of each kind, in call order. */
  lemma BlankBuckets(calls: seq<FilterCall>)
    ensures BucketsOf(ApplyCalls(Blank, calls))
         == Buckets(Select(calls, AttributeKind), Select(calls, ContainsKind), Select(calls, EqualKind))
  {
    ApplyCallsBuckets(Blank, calls);
    var b := BucketsOf(ApplyCalls(Blank, calls));
    assert b.Bucket(AttributeKind) == [] + Select(calls, AttributeKind);
    assert b.Bucket(ContainsKind) == [] + Select(calls, ContainsKind);
    assert b.Bucket(EqualKind) == [] + Select(calls, EqualKind);
  }

  /**
    However the calls were interleaved, `Filters()` renders all attribute
    predicates first, then all contains predicates, then all equal
    predicates, each run in call order.
   */
  lemma FiltersFollowKindOrder(calls: seq<FilterCall>)
    ensures FiltersOf(ApplyCalls(Blank, calls))
         == BucketClauses(Buckets(Select(calls, AttributeKind), Select(calls, ContainsKind), Select(calls, EqualKind)))
  {
    BlankBuckets(calls);
  }

  lemma SelectNonEmpty(calls: seq<FilterCall>)
    requires calls != []
    ensures Select(calls, calls[0].kind) != []
  {
  }

  /**
    Two call sequences that agree bucket by bucket build the same element:
    only the order within a kind matters.
   */
  lemma InterleavingIrrelevant(e: Element, calls1: seq<FilterCall>, calls2: seq<FilterCall>)
    requires forall k :: Select(calls1, k) == Select(calls2, k)
    ensures ApplyCalls(e, calls1) == ApplyCalls(e, calls2)
  {
    ApplyCallsBuckets(e, calls1);
    ApplyCallsBuckets(e, calls2);
    ApplyCallsFrame(e, calls1);
    ApplyCallsFrame(e, calls2);
    if calls1 == [] && calls2 != [] {
      SelectNonEmpty(calls2);
      assert false;
    } else if calls1 != [] && calls2 == [] {
      SelectNonEmpty(calls1);
      assert false;
    } else if calls1 != [] {
      var b1 := BucketsOf(ApplyCalls(e, calls1));
      var b2 := BucketsOf(ApplyCalls(e, calls2));
      assert b1.Bucket(AttributeKind) == b2.Bucket(AttributeKind);
      assert b1.Bucket(ContainsKind) == b2.Bucket(ContainsKind);
      assert b1.Bucket(EqualKind) == b2.Bucket(EqualKind);
    }
  }

  // ---------------------------------------------------------------------
  // What a clause determines

  predicate QuoteFree(s: string) {
    forall i :: 0 <= i < |s| ==> s[i] != '"'
  }

  /** The index of the first double quote in `s`, or `|s|` when there is none. */
  function FirstQuote(s: string): (i: nat)
    ensures i <= |s|
  {
    if s == [] || s[0] == '"' then 0 else 1 + FirstQuote(s[1..])
  }

  lemma {:induction false} FirstQuoteAfter(x: string, y: string)
    requires QuoteFree(x)
    ensures FirstQuote(x + "\"" + y) == |x|
    decreases |x|
  {
    if x != [] {
      assert (x + "\"" + y)[1..] == x[1..] + "\"" + y;
      FirstQuoteAfter(x[1..], y);
    }
  }

  /** A quote-free prefix ends at the first quote, so it can be split off uniquely. */
  lemma SplitAtQuote(x1: string, y1: string, x2: string, y2: string)
    requires QuoteFree(x1) && QuoteFree(x2)
    requires x1 + "\"" + y1 == x2 + "\"" + y2
    ensures x1 == x2 && y1 == y2
  {
    var s := x1 + "\"" + y1;
    FirstQuoteAfter(x1, y1);
    FirstQuoteAfter(x2, y2);
    assert x1 == s[..|x1|];
    assert x2 == s[..|x2|];
    assert y1 == s[|x1| + 1..];
    assert y2 == s[|x2| + 1..];
  }

  lemma PosSuffixInjective(p: int, q: int)
    requires PosSuffix(p) == PosSuffix(q)
    ensures (p <= 0 && q <= 0) || p == q
  {
    if p > 0 && q > 0 {
      PosSuffixNumeral(p);
      PosSuffixNumeral(q);
    }
  }

  /** The prefix, key and separator before a clause's first quote, and what follows it. */
  function Opening(k: Kind, key: string): string {
    match k
    case AttributeKind => "[@" + key + "="
    case ContainsKind => "[contains(" + key + ","
    case EqualKind => "[" + key + "="
  }

  function Closing(k: Kind): string {
    match k
    case ContainsKind => ")]"
    case _ => "]"
  }

  lemma ClauseShape(k: Kind, f: Filter)
    ensures Clause(k, f) == Opening(k, f.key) + "\"" + (f.value + "\"" + (Closing(k) + PosSuffix(f.position)))
  {
    var sep := match k case ContainsKind => "," case _ => "=";
    var lead := match k case AttributeKind => "[@" case ContainsKind => "[contains(" case EqualKind => "[";
    assert Opening(k, f.key) == lead + f.key + sep;
    assert sep + "\"" == (match k case ContainsKind => ",\"" case _ => "=\"");
    assert "\"" + Closing(k) == (match k case ContainsKind => "\")]" case _ => "\"]");
    QuoteSplit(lead + f.key, sep, f.value, Closing(k), PosSuffix(f.position));
  }

  lemma QuoteSplit(head: string, sep: string, v: string, close: string, p: string)
    ensures head + (sep + "\"") + v + ("\"" + close) + p == head + sep + "\"" + (v + "\"" + (close + p))
  {
  }

  lemma OpeningInjective(k: Kind, a: string, b: string)
    requires Opening(k, a) == Opening(k, b)
    ensures a == b
  {
    var n := match k case ContainsKind => 10 case AttributeKind => 2 case EqualKind => 1;
    assert a == Opening(k, a)[n..|Opening(k, a)| - 1];
    assert b == Opening(k, b)[n..|Opening(k, b)| - 1];
  }

  lemma QuoteFreeOpening(k: Kind, key: string)
    requires QuoteFree(key)
    ensures QuoteFree(Opening(k, key))
  {
    var o := Opening(k, key);
    var n := match k case ContainsKind => 10 case AttributeKind => 2 case EqualKind => 1;
    forall i | 0 <= i < |o|
      ensures o[i] != '"'
    {
      if n <= i < n + |key| {
        assert o[i] == key[i - n];
      }
    }
  }

  /** The part of a clause after the opening quote: the value, then the closing quote and bracket. */
  lemma ClauseTailInjective(k: Kind, v: string, p: int, w: string, q: int)
    requires QuoteFree(v) && QuoteFree(w)
    requires v + "\"" + (Closing(k) + PosSuffix(p)) == w + "\"" + (Closing(k) + PosSuffix(q))
    ensures v == w
    ensures p > 0 || q > 0 ==> p == q
  {
    SplitAtQuote(v, Closing(k) + PosSuffix(p), w, Closing(k) + PosSuffix(q));
    assert PosSuffix(p) == (Closing(k) + PosSuffix(p))[|Closing(k)|..];
    assert PosSuffix(q) == (Closing(k) + PosSuffix(q))[|Closing(k)|..];
    PosSuffixInjective(p, q);
  }

  /**
    When keys and values hold no double quote, a rendered clause determines
    its filter: the key, the value, and the position whenever it is positive.
   */
  lemma ClauseInjective(k: Kind, f: Filter, g: Filter)
    requires QuoteFree(f.key) && QuoteFree(f.value) && QuoteFree(g.key) && QuoteFree(g.value)
    requires Clause(k, f) == Clause(k, g)
    ensures f.key == g.key && f.value == g.value
    ensures f.position > 0 || g.position > 0 ==> f.position == g.position
  {
    var tf := f.value + "\"" + (Closing(k) + PosSuffix(f.position));
    var tg := g.value + "\"" + (Closing(k) + PosSuffix(g.position));
    ClauseShape(k, f);
    ClauseShape(k, g);
    QuoteFreeOpening(k, f.key);
    QuoteFreeOpening(k, g.key);
    SplitAtQuote(Opening(k, f.key), tf, Opening(k, g.key), tg);
    OpeningInjective(k, f.key, g.key);
    ClauseTailInjective(k, f.value, f.position, g.value, g.position);
  }

  /**
    Values are substituted without escaping: one attribute filter whose
    value holds quotes renders exactly like two separate filters.
   */
  lemma QuoteInjection()
    ensures Clauses(AttributeKind, [Filter("id", "a\"][@x=\"b", 0)])
         == Clauses(AttributeKind, [Filter("id", "a", 0), Filter("x", "b", 0)])
  {
  }
}
