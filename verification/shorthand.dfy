/**
  The tag-shorthand constructors of base/Element.go: each is a fresh zero
  value with only the tag and its position set, and renders, until a path
  is set, as `//<tag>` followed by the positional predicate.
 */
module Shorthands {
  import opened Text
  import opened Elements
  import opened Compiler

  /** A single fresh element whose only settings are `tag` and `tagPos`. */
  predicate IsTagOnly(e: Element, tag: string, tagPos: int) {
    e == Blank.(tag := tag, tagPos := tagPos)
  }

  /** A fresh single element renders as `//`, its tag (or `*`), and the positional predicate. */
  lemma TagOnlyRender(e: Element, tag: string, tagPos: int)
    requires IsTagOnly(e, tag, tagPos)
    ensures Render(e) == "//" + (if tag == "" then "*" else tag) + PosSuffix(tagPos)
  {
    assert FiltersOf(e) == "";
    assert Render(e) == StepString(e);
  }

  /** `HtmlTag`: an element matching any tag name. */
  function HtmlTag(tag: string, tagPos: int): (r: Element)
    ensures IsTagOnly(r, TrimSpace(tag), tagPos)
  {
    ByTag(Blank, tag, tagPos)
  }

  /**
    `ByTag` on the zero value with a fixed tag name that has no white space
    to trim, as every shorthand below does.
   */
  function Named(name: string, tagPos: int): (r: Element)
    requires name != "" && NoEdgeSpace(name)
    ensures IsTagOnly(r, name, tagPos)
    ensures Render(r) == "//" + name + PosSuffix(tagPos)
  {
    TrimSpaceKeepsClean(name);
    var r := ByTag(Blank, name, tagPos);
    TagOnlyRender(r, name, tagPos);
    r
  }

  function Submit(tagPos: int): (r: Element)
    ensures IsTagOnly(r, "submit", tagPos)
    ensures Render(r) == "//" + "submit" + PosSuffix(tagPos)
  {
    Named("submit", tagPos)
  }

  function Button(tagPos: int): (r: Element)
    ensures IsTagOnly(r, "button", tagPos)
    ensures Render(r) == "//" + "button" + PosSuffix(tagPos)
  {
    Named("button", tagPos)
  }

  function Input(tagPos: int): (r: Element)
    ensures IsTagOnly(r, "input", tagPos)
    ensures Render(r) == "//" + "input" + PosSuffix(tagPos)
  {
    Named("input", tagPos)
  }

  function Textarea(tagPos: int): (r: Element)
    ensures IsTagOnly(r, "textarea", tagPos)
    ensures Render(r) == "//" + "textarea" + PosSuffix(tagPos)
  {
    Named("textarea", tagPos)
  }

  function Paragraph(tagPos: int): (r: Element)
    ensures IsTagOnly(r, "p", tagPos)
    ensures Render(r) == "//" + "p" + PosSuffix(tagPos)
  {
    Named("p", tagPos)
  }

  function Div(tagPos: int): (r: Element)
    ensures IsTagOnly(r, "div", tagPos)
    ensures Render(r) == "//" + "div" + PosSuffix(tagPos)
  {
    Named("div", tagPos)
  }

  function Header(tagPos: int): (r: Element)
    ensures IsTagOnly(r, "h1", tagPos)
    ensures Render(r) == "//" + "h1" + PosSuffix(tagPos)
  {
    Named("h1", tagPos)
  }

  function Header2(tagPos: int): (r: Element)
    ensures IsTagOnly(r, "h2", tagPos)
    ensures Render(r) == "//" + "h2" + PosSuffix(tagPos)
  {
    Named("h2", tagPos)
  }

  function Header3(tagPos: int): (r: Element)
    ensures IsTagOnly(r, "h3", tagPos)
    ensures Render(r) == "//" + "h3" + PosSuffix(tagPos)
  {
    Named("h3", tagPos)
  }

  function Header4(tagPos: int): (r: Element)
    ensures IsTagOnly(r, "h4", tagPos)
    ensures Render(r) == "//" + "h4" + PosSuffix(tagPos)
  {
    Named("h4", tagPos)
  }
}
