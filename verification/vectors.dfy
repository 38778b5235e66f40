/**
  Selector expressions used by main.go and examples.go, with the strings
  the model renders for them. `Html`, `Body` and `Anchor`, which
  examples.go calls but base/Element.go does not define, are written as
  `HtmlTag("html", 0)`, `HtmlTag("body", 0)` and `HtmlTag("a", 0)`.

  Each vector is first proved (the `...At` lemmas) for elements and
  strings that are only known to agree with the literals, in three steps:
  the rendering as a left-nested concatenation of pieces, then the pieces
  (the `...Text` lemmas), then the instance.
 */
module Vectors {
  import opened Wrappers
  import opened Text
  import opened Elements
  import opened Compiler
  import opened Shorthands

  /** A step with a non-empty tag is its path, its tag, the tag's position and its predicates. */
  lemma NamedStep(e: Element)
    requires e.tag != ""
    ensures StepString(e) == PathOf(e) + e.tag + PosSuffix(e.tagPos) + FiltersOf(e)
    ensures e.child.None? ==> Render(e) == StepString(e)
  {
    assert TagOf(e) == e.tag + PosSuffix(e.tagPos);
    Regroup(PathOf(e), e.tag, PosSuffix(e.tagPos), FiltersOf(e));
  }

  /** The text of one predicate, for each bucket. */
  lemma ClauseText(k: Kind, f: Filter)
    ensures k == AttributeKind ==> Clause(k, f) == "[@" + f.key + "=\"" + f.value + "\"]" + PosSuffix(f.position)
    ensures k == ContainsKind ==> Clause(k, f) == "[contains(" + f.key + ",\"" + f.value + "\")]" + PosSuffix(f.position)
    ensures k == EqualKind ==> Clause(k, f) == "[" + f.key + "=\"" + f.value + "\"]" + PosSuffix(f.position)
  {
  }

  /** When only the bucket of kind `k` holds filters, the predicates are that bucket's clauses. */
  lemma OnlyBucket(e: Element, k: Kind)
    requires forall k' :: k' != k ==> BucketsOf(e).Bucket(k') == []
    ensures FiltersOf(e) == Clauses(k, BucketsOf(e).Bucket(k))
  {
    var b := BucketsOf(e);
    var a := Clauses(AttributeKind, b.attributes);
    var c := Clauses(ContainsKind, b.contains);
    var q := Clauses(EqualKind, b.equals);
    assert FiltersOf(e) == a + c + q;
    match k
    case AttributeKind =>
      assert b.Bucket(ContainsKind) == [] && b.Bucket(EqualKind) == [];
      assert c == "" && q == "";
    case ContainsKind =>
      assert b.Bucket(AttributeKind) == [] && b.Bucket(EqualKind) == [];
      assert a == "" && q == "";
    case EqualKind =>
      assert b.Bucket(AttributeKind) == [] && b.Bucket(ContainsKind) == [];
      assert a == "" && c == "";
  }

  /** One filter on an element that had none renders as exactly that predicate. */
  lemma OneFilter(e: Element, k: Kind, key: string, value: string, position: int)
    requires e.filters.None?
    ensures FiltersOf(AddFilter(e, k, key, value, position)) == Clause(k, Filter(key, value, position))
  {
    var f := Filter(key, value, position);
    var r := AddFilter(e, k, key, value, position);
    assert BucketsOf(r).Bucket(k) == [f];
    OnlyBucket(r, k);
    assert Clauses(k, [f]) == Clause(k, f) by { assert [f][1..] == []; }
  }

  /** Two filters of the same bucket render in the order they were added. */
  lemma TwoFilters(e: Element, k: Kind, f1: Filter, f2: Filter)
    requires e.filters.None?
    ensures FiltersOf(AddFilter(AddFilter(e, k, f1.key, f1.value, f1.position), k, f2.key, f2.value, f2.position))
         == Clause(k, f1) + Clause(k, f2)
  {
    var e1 := AddFilter(e, k, f1.key, f1.value, f1.position);
    var r := AddFilter(e1, k, f2.key, f2.value, f2.position);
    assert BucketsOf(e1).Bucket(k) == [f1];
    assert BucketsOf(r).Bucket(k) == [f1, f2];
    OnlyBucket(r, k);
    assert Clauses(k, [f2]) == Clause(k, f2) by { assert [f2][1..] == []; }
    assert Clauses(k, [f1, f2]) == Clause(k, f1) + Clause(k, f2) by { assert [f1, f2][1..] == [f2]; }
  }

  /** A contains filter added before an attribute filter still renders after it. */
  lemma ContainsThenAttribute(e: Element, c: Filter, a: Filter)
    requires e.filters.None?
    ensures FiltersOf(AddFilter(AddFilter(e, ContainsKind, c.key, c.value, c.position), AttributeKind, a.key, a.value, a.position))
         == Clause(AttributeKind, a) + Clause(ContainsKind, c)
  {
    var r := AddFilter(AddFilter(e, ContainsKind, c.key, c.value, c.position), AttributeKind, a.key, a.value, a.position);
    assert Clauses(AttributeKind, [a]) == Clause(AttributeKind, a) by { assert [a][1..] == []; }
    assert Clauses(ContainsKind, [c]) == Clause(ContainsKind, c) by { assert [c][1..] == []; }
    var b := BucketsOf(r);
    assert b == NoFilters.Append(ContainsKind, c).Append(AttributeKind, a);
    assert b.attributes == [a] && b.contains == [c] && b.equals == [];
  }

  /** Appending a six-piece clause is appending its pieces one at a time. */
  lemma AppendPieces(x: string, a: string, b: string, c: string, d: string, e: string, f: string)
    ensures x + (a + b + c + d + e + f) == x + a + b + c + d + e + f
  {
  }

  /** Appending two six-piece clauses is appending their pieces one at a time. */
  lemma AppendTwoClauses(x: string, a1: string, a2: string, a3: string, a4: string, a5: string, a6: string,
                         b1: string, b2: string, b3: string, b4: string, b5: string, b6: string)
    ensures x + ((a1 + a2 + a3 + a4 + a5 + a6) + (b1 + b2 + b3 + b4 + b5 + b6))
         == x + a1 + a2 + a3 + a4 + a5 + a6 + b1 + b2 + b3 + b4 + b5 + b6
  {
    AppendPieces(x, a1, a2, a3, a4, a5, a6);
    AppendPieces(x + a1 + a2 + a3 + a4 + a5 + a6, b1, b2, b3, b4, b5, b6);
  }

  lemma SmallPositions()
    ensures PosSuffix(0) == "" && PosSuffix(2) == "[2]" && PosSuffix(3) == "[3]"
  {
    assert DigitChar(2) == '2' && DigitChar(3) == '3';
  }

  // examples.go:18

  lemma InputByIdText(p: string, t: string, s: string, id: string, name: string, s1: string)
    requires p == "//" && t == "input" && s == "" && id == "id" && name == "fname" && s1 == ""
    ensures p + t + s + "[@" + id + "=\"" + name + "\"]" + s1 == "//input[@id=\"fname\"]"
  {
    assert p + t + s == "//input";
    assert p + t + s + "[@" + id == "//input[@id";
    assert p + t + s + "[@" + id + "=\"" + name == "//input[@id=\"fname";
  }

  lemma InputByIdAt(e: Element, id: string, name: string)
    requires e.path == "//" && e.tag == "input" && e.tagPos == 0 && e.filters.None? && e.child.None?
    requires id == "id" && name == "fname"
    ensures Render(ByAttribute(e, id, name, 0)) == "//input[@id=\"fname\"]"
  {
    var r := ByAttribute(e, id, name, 0);
    var f := Filter(id, name, 0);
    NamedStep(r);
    OneFilter(e, AttributeKind, id, name, 0);
    ClauseText(AttributeKind, f);
    AppendPieces(PathOf(r) + r.tag + PosSuffix(0), "[@", id, "=\"", name, "\"]", PosSuffix(0));
    InputByIdText(PathOf(r), r.tag, PosSuffix(0), id, name, PosSuffix(0));
  }

  /** examples.go:18 */
  lemma InputById()
    ensures Render(ByAttribute(ByPath(Input(0), "//"), "id", "fname", 0)) == "//input[@id=\"fname\"]"
  {
    TrimSpaceKeepsClean("//");
    InputByIdAt(ByPath(Input(0), "//"), "id", "fname");
  }

  // examples.go:39

  lemma AnchorContainsText(p: string, t: string, s: string, option: string, className: string, s1: string)
    requires p == "//" && t == "a" && s == "" && option == "@class" && className == "w3-btn" && s1 == ""
    ensures p + t + s + "[contains(" + option + ",\"" + className + "\")]" + s1 == "//a[contains(@class,\"w3-btn\")]"
  {
    assert p + t + s == "//a";
    assert p + t + s + "[contains(" + option == "//a[contains(@class";
    assert p + t + s + "[contains(" + option + ",\"" + className == "//a[contains(@class,\"w3-btn";
  }

  lemma AnchorContainsAt(e: Element, option: string, className: string)
    requires e.path == "" && !e.hasParent && e.tag == "a" && e.tagPos == 0 && e.filters.None? && e.child.None?
    requires option == "@class" && className == "w3-btn"
    ensures Render(ByContains(e, option, className, 0)) == "//a[contains(@class,\"w3-btn\")]"
  {
    var r := ByContains(e, option, className, 0);
    var f := Filter(option, className, 0);
    NamedStep(r);
    OneFilter(e, ContainsKind, option, className, 0);
    ClauseText(ContainsKind, f);
    AppendPieces(PathOf(r) + r.tag + PosSuffix(0), "[contains(", option, ",\"", className, "\")]", PosSuffix(0));
    AnchorContainsText(PathOf(r), r.tag, PosSuffix(0), option, className, PosSuffix(0));
  }

  /** examples.go:39 */
  lemma AnchorContains()
    ensures Render(ByContains(HtmlTag("a", 0), "@class", "w3-btn", 0)) == "//a[contains(@class,\"w3-btn\")]"
  {
    TrimSpaceKeepsClean("a");
    AnchorContainsAt(HtmlTag("a", 0), "@class", "w3-btn");
  }

  // examples.go:42

  lemma SubmitInputText(p: string, t: string, s: string, a1: string, v1: string, s1: string, a2: string, v2: string, s2: string)
    requires p == "//" && t == "input" && s == "" && s1 == "" && s2 == ""
    requires a1 == "type" && v1 == "submit" && a2 == "value" && v2 == "Submit"
    ensures p + t + s + "[@" + a1 + "=\"" + v1 + "\"]" + s1 + "[@" + a2 + "=\"" + v2 + "\"]" + s2
         == "//input[@type=\"submit\"][@value=\"Submit\"]"
  {
    assert p + t + s == "//input";
    assert p + t + s + "[@" + a1 == "//input[@type";
    assert p + t + s + "[@" + a1 + "=\"" + v1 == "//input[@type=\"submit";
    assert p + t + s + "[@" + a1 + "=\"" + v1 + "\"]" + s1 + "[@" == "//input[@type=\"submit\"][@";
    assert p + t + s + "[@" + a1 + "=\"" + v1 + "\"]" + s1 + "[@" + a2 == "//input[@type=\"submit\"][@value";
    assert p + t + s + "[@" + a1 + "=\"" + v1 + "\"]" + s1 + "[@" + a2 + "=\"" + v2 == "//input[@type=\"submit\"][@value=\"Submit";
  }

  lemma SubmitInputAt(e: Element, t: string, submit: string, v: string, caption: string)
    requires e.path == "//" && e.tag == "input" && e.tagPos == 0 && e.filters.None? && e.child.None?
    requires t == "type" && submit == "submit" && v == "value" && caption == "Submit"
    ensures Render(ByAttribute(ByAttribute(e, t, submit, 0), v, caption, 0)) == "//input[@type=\"submit\"][@value=\"Submit\"]"
  {
    var r := ByAttribute(ByAttribute(e, t, submit, 0), v, caption, 0);
    var f1 := Filter(t, submit, 0);
    var f2 := Filter(v, caption, 0);
    NamedStep(r);
    TwoFilters(e, AttributeKind, f1, f2);
    ClauseText(AttributeKind, f1);
    ClauseText(AttributeKind, f2);
    AppendTwoClauses(PathOf(r) + r.tag + PosSuffix(0), "[@", t, "=\"", submit, "\"]", PosSuffix(0), "[@", v, "=\"", caption, "\"]", PosSuffix(0));
    SubmitInputText(PathOf(r), r.tag, PosSuffix(0), t, submit, PosSuffix(0), v, caption, PosSuffix(0));
  }

  /** examples.go:42 */
  lemma SubmitInput()
    ensures Render(ByAttribute(ByAttribute(ByPath(Input(0), "//"), "type", "submit", 0), "value", "Submit", 0))
         == "//input[@type=\"submit\"][@value=\"Submit\"]"
  {
    TrimSpaceKeepsClean("//");
    SubmitInputAt(ByPath(Input(0), "//"), "type", "submit", "value", "Submit");
  }

  // main.go:42

  lemma HeaderTextText(p: string, t: string, s: string, option: string, text: string, s1: string)
    requires p == "//" && t == "h1" && s == "" && option == "text()" && text == "Example Domain" && s1 == ""
    ensures p + t + s + "[contains(" + option + ",\"" + text + "\")]" + s1 == "//h1[contains(text(),\"Example Domain\")]"
  {
    assert p + t + s == "//h1";
    assert p + t + s + "[contains(" + option == "//h1[contains(text()";
    assert p + t + s + "[contains(" + option + ",\"" + text == "//h1[contains(text(),\"Example Domain";
  }

  lemma HeaderTextAt(h: Element, option: string, text: string)
    requires h.path == "" && !h.hasParent && h.tag == "h1" && h.tagPos == 0 && h.filters.None? && h.child.None?
    requires option == "text()" && text == "Example Domain"
    ensures Render(ByContains(h, option, text, 0)) == "//h1[contains(text(),\"Example Domain\")]"
  {
    var r := ByContains(h, option, text, 0);
    var f := Filter(option, text, 0);
    NamedStep(r);
    OneFilter(h, ContainsKind, option, text, 0);
    ClauseText(ContainsKind, f);
    AppendPieces(PathOf(r) + r.tag + PosSuffix(0), "[contains(", option, ",\"", text, "\")]", PosSuffix(0));
    HeaderTextText(PathOf(r), r.tag, PosSuffix(0), option, text, PosSuffix(0));
  }

  /** main.go:42 */
  lemma HeaderText()
    ensures Render(ByContains(Header(0), "text()", "Example Domain", 0)) == "//h1[contains(text(),\"Example Domain\")]"
  {
    HeaderTextAt(Header(0), "text()", "Example Domain");
  }

  // Positions, and the bucket order overriding the call order

  lemma PositionsAndOrderText(p: string, t: string, s: string, a: string, v2: string, s2: string, o: string, v1: string, s1: string)
    requires p == "//" && t == "a" && s == "[2]" && s2 == "[3]" && s1 == ""
    requires a == "id" && v2 == "x" && o == "@class" && v1 == "w3-btn"
    ensures p + t + s + "[@" + a + "=\"" + v2 + "\"]" + s2 + "[contains(" + o + ",\"" + v1 + "\")]" + s1
         == "//a[2][@id=\"x\"][3][contains(@class,\"w3-btn\")]"
  {
    assert p + t + s == "//a[2]";
    assert p + t + s + "[@" + a == "//a[2][@id";
    assert p + t + s + "[@" + a + "=\"" + v2 + "\"]" + s2 == "//a[2][@id=\"x\"][3]";
    assert p + t + s + "[@" + a + "=\"" + v2 + "\"]" + s2 + "[contains(" + o == "//a[2][@id=\"x\"][3][contains(@class";
    assert p + t + s + "[@" + a + "=\"" + v2 + "\"]" + s2 + "[contains(" + o + ",\"" + v1 == "//a[2][@id=\"x\"][3][contains(@class,\"w3-btn";
  }

  lemma PositionsAndOrderAt(e: Element, o: string, v1: string, a: string, v2: string)
    requires e.path == "" && !e.hasParent && e.tag == "a" && e.tagPos == 2 && e.filters.None? && e.child.None?
    requires o == "@class" && v1 == "w3-btn" && a == "id" && v2 == "x"
    ensures Render(ByAttribute(ByContains(e, o, v1, 0), a, v2, 3)) == "//a[2][@id=\"x\"][3][contains(@class,\"w3-btn\")]"
  {
    var r := ByAttribute(ByContains(e, o, v1, 0), a, v2, 3);
    var f1 := Filter(o, v1, 0);
    var f2 := Filter(a, v2, 3);
    NamedStep(r);
    ContainsThenAttribute(e, f1, f2);
    ClauseText(AttributeKind, f2);
    ClauseText(ContainsKind, f1);
    SmallPositions();
    AppendTwoClauses(PathOf(r) + r.tag + PosSuffix(2), "[@", a, "=\"", v2, "\"]", PosSuffix(3), "[contains(", o, ",\"", v1, "\")]", PosSuffix(0));
    PositionsAndOrderText(PathOf(r), r.tag, PosSuffix(2), a, v2, PosSuffix(3), o, v1, PosSuffix(0));
  }

  /** A positioned, padded tag, and a contains filter added before a positioned attribute filter. */
  lemma PositionsAndOrder()
    ensures Render(ByAttribute(ByContains(HtmlTag(" a ", 2), "@class", "w3-btn", 0), "id", "x", 3))
         == "//a[2][@id=\"x\"][3][contains(@class,\"w3-btn\")]"
  {
    TrimSpaceUnique(" ", "a", " ");
    assert " " + "a" + " " == " a ";
    PositionsAndOrderAt(HtmlTag(" a ", 2), "@class", "w3-btn", "id", "x");
  }

  // examples.go:33

  /** Appending a step whose predicates are one six-piece clause is appending its pieces one at a time. */
  lemma AppendStep(x: string, p: string, t: string, s: string, a: string, b: string, c: string, d: string, e: string, f: string)
    ensures x + (p + t + s + (a + b + c + d + e + f)) == x + p + t + s + a + b + c + d + e + f
  {
  }

  lemma ChainHeadText(ph: string, th: string, sh: string, fh: string, pb: string, tb: string, sb: string, fb: string,
                      pd: string, td: string, sd: string, o: string, v: string, s: string)
    requires ph == "//" && th == "html" && sh == "" && fh == "" && pb == "/" && tb == "body" && sb == "" && fb == ""
    requires pd == "/" && td == "div" && sd == "" && o == "@class" && v == "w3-container top" && s == ""
    ensures ph + th + sh + fh + pb + tb + sb + fb + pd + td + sd + "[" + o + "=\"" + v + "\"]" + s
         == "//html/body/div[@class=\"w3-container top\"]"
  {
    assert ph + th + sh + fh == "//html";
    assert ph + th + sh + fh + pb + tb + sb + fb == "//html/body";
    assert ph + th + sh + fh + pb + tb + sb + fb + pd + td + sd + "[" + o == "//html/body/div[@class";
    assert ph + th + sh + fh + pb + tb + sb + fb + pd + td + sd + "[" + o + "=\"" + v == "//html/body/div[@class=\"w3-container top";
  }

  lemma ChainTailText(x: string, p: string, t: string, s: string, o: string, v: string, s1: string)
    requires x == "//html/body/div[@class=\"w3-container top\"]"
    requires p == "/" && t == "a" && s == "" && o == "@class" && v == "w3schools-logo" && s1 == ""
    ensures x + p + t + s + "[contains(" + o + ",\"" + v + "\")]" + s1
         == "//html/body/div[@class=\"w3-container top\"]/a[contains(@class,\"w3schools-logo\")]"
  {
    assert x + p + t + s + "[contains(" + o == "//html/body/div[@class=\"w3-container top\"]/a[contains(@class";
    assert x + p + t + s + "[contains(" + o + ",\"" + v == "//html/body/div[@class=\"w3-container top\"]/a[contains(@class,\"w3schools-logo";
  }

  /** A chain of four elements renders as their four steps. */
  lemma FourSteps(w: Element, x: Element, y: Element, z: Element)
    requires w.child == Some(x) && x.child == Some(y) && y.child == Some(z) && z.child.None?
    ensures Render(w) == StepString(w) + (StepString(x) + (StepString(y) + StepString(z)))
  {
    assert Render(y) == StepString(y) + Render(z);
    assert Render(x) == StepString(x) + Render(y);
  }

  lemma Regroup(a: string, b: string, c: string, d: string)
    ensures a + (b + (c + d)) == a + b + c + d
    ensures a + (b + c) + d == a + b + c + d
  {
  }

  /** Four steps, the last two with one predicate each, flattened into their pieces. */
  lemma FlattenSteps(sw: string, pw: string, tw: string, qw: string, fw: string,
                     sx: string, px: string, tx: string, qx: string, fx: string,
                     sy: string, py: string, ty: string, qy: string, y1: string, y2: string, y3: string, y4: string, y5: string, y6: string,
                     sz: string, pz: string, tz: string, qz: string, z1: string, z2: string, z3: string, z4: string, z5: string, z6: string)
    requires sw == pw + tw + qw + fw && sx == px + tx + qx + fx
    requires sy == py + ty + qy + (y1 + y2 + y3 + y4 + y5 + y6)
    requires sz == pz + tz + qz + (z1 + z2 + z3 + z4 + z5 + z6)
    ensures sw + sx + sy + sz
         == pw + tw + qw + fw + px + tx + qx + fx
          + py + ty + qy + y1 + y2 + y3 + y4 + y5 + y6
          + pz + tz + qz + z1 + z2 + z3 + z4 + z5 + z6
  {
    var wx := pw + tw + qw + fw + px + tx + qx + fx;
    assert sw + sx == wx;
    AppendStep(wx, py, ty, qy, y1, y2, y3, y4, y5, y6);
    AppendStep(wx + py + ty + qy + y1 + y2 + y3 + y4 + y5 + y6, pz, tz, qz, z1, z2, z3, z4, z5, z6);
  }

  /** The rendering of a four-element chain whose last two elements carry one predicate each, piece by piece. */
  lemma ChainPieces(w: Element, x: Element, y: Element, z: Element, f1: Filter, f2: Filter)
    requires w.child == Some(x) && x.child == Some(y) && y.child == Some(z) && z.child.None?
    requires w.tag != "" && x.tag != "" && y.tag != "" && z.tag != ""
    requires FiltersOf(y) == Clause(EqualKind, f1) && FiltersOf(z) == Clause(ContainsKind, f2)
    ensures Render(w)
         == PathOf(w) + w.tag + PosSuffix(w.tagPos) + FiltersOf(w) + PathOf(x) + x.tag + PosSuffix(x.tagPos) + FiltersOf(x)
          + PathOf(y) + y.tag + PosSuffix(y.tagPos) + "[" + f1.key + "=\"" + f1.value + "\"]" + PosSuffix(f1.position)
          + PathOf(z) + z.tag + PosSuffix(z.tagPos) + "[contains(" + f2.key + ",\"" + f2.value + "\")]" + PosSuffix(f2.position)
  {
    FourSteps(w, x, y, z);
    Regroup(StepString(w), StepString(x), StepString(y), StepString(z));
    NamedStep(w);
    NamedStep(x);
    NamedStep(y);
    NamedStep(z);
    ClauseText(EqualKind, f1);
    ClauseText(ContainsKind, f2);
    FlattenSteps(StepString(w), PathOf(w), w.tag, PosSuffix(w.tagPos), FiltersOf(w),
                 StepString(x), PathOf(x), x.tag, PosSuffix(x.tagPos), FiltersOf(x),
                 StepString(y), PathOf(y), y.tag, PosSuffix(y.tagPos), "[", f1.key, "=\"", f1.value, "\"]", PosSuffix(f1.position),
                 StepString(z), PathOf(z), z.tag, PosSuffix(z.tagPos), "[contains(", f2.key, ",\"", f2.value, "\")]", PosSuffix(f2.position));
  }

  lemma NestedChainAt(h: Element, b: Element, d: Element, a: Element, o1: string, v1: string, o2: string, v2: string)
    requires h.path == "" && !h.hasParent && h.tag == "html" && h.tagPos == 0 && h.filters.None?
    requires b.path == "" && b.tag == "body" && b.tagPos == 0 && b.filters.None?
    requires d.path == "" && d.tag == "div" && d.tagPos == 0 && d.filters.None?
    requires a.path == "" && a.tag == "a" && a.tagPos == 0 && a.filters.None? && a.child.None?
    requires o1 == "@class" && v1 == "w3-container top" && o2 == "@class" && v2 == "w3schools-logo"
    ensures Render(AddChild(h, AddChild(b, AddChild(ByEqual(d, o1, v1, 0), ByContains(a, o2, v2, 0)))))
         == "//html/body/div[@class=\"w3-container top\"]/a[contains(@class,\"w3schools-logo\")]"
  {
    var f1 := Filter(o1, v1, 0);
    var f2 := Filter(o2, v2, 0);
    var a' := ByContains(a, o2, v2, 0).(hasParent := true);
    var d' := AddChild(ByEqual(d, o1, v1, 0), ByContains(a, o2, v2, 0)).(hasParent := true);
    var b' := AddChild(b, AddChild(ByEqual(d, o1, v1, 0), ByContains(a, o2, v2, 0))).(hasParent := true);
    var h' := AddChild(h, AddChild(b, AddChild(ByEqual(d, o1, v1, 0), ByContains(a, o2, v2, 0))));
    OneFilter(d, EqualKind, o1, v1, 0);
    OneFilter(a, ContainsKind, o2, v2, 0);
    assert FiltersOf(d') == FiltersOf(ByEqual(d, o1, v1, 0));
    assert FiltersOf(a') == FiltersOf(ByContains(a, o2, v2, 0));
    ChainPieces(h', b', d', a', f1, f2);
    var q := PosSuffix(0);
    ChainHeadText(PathOf(h'), h'.tag, q, FiltersOf(h'), PathOf(b'), b'.tag, q, FiltersOf(b'), PathOf(d'), d'.tag, q, o1, v1, q);
    var hbd := PathOf(h') + h'.tag + q + FiltersOf(h') + PathOf(b') + b'.tag + q + FiltersOf(b')
             + PathOf(d') + d'.tag + q + "[" + o1 + "=\"" + v1 + "\"]" + q;
    ChainTailText(hbd, PathOf(a'), a'.tag, q, o2, v2, q);
  }

  /** examples.go:33, with `Html`, `Body` and `Anchor` spelled out. */
  lemma NestedChain()
    ensures Render(AddChild(HtmlTag("html", 0),
                   AddChild(HtmlTag("body", 0),
                   AddChild(ByEqual(Div(0), "@class", "w3-container top", 0),
                   ByContains(HtmlTag("a", 0), "@class", "w3schools-logo", 0)))))
         == "//html/body/div[@class=\"w3-container top\"]/a[contains(@class,\"w3schools-logo\")]"
  {
    TrimSpaceKeepsClean("html");
    TrimSpaceKeepsClean("body");
    TrimSpaceKeepsClean("a");
    NestedChainAt(HtmlTag("html", 0), HtmlTag("body", 0), Div(0), HtmlTag("a", 0),
                  "@class", "w3-container top", "@class", "w3schools-logo");
  }
}
