# XPath selector builder of webdice-atat, in Dafny

This project models the selector builder in `base/Element.go` of webdice-atat.
An `Element` is one step of an XPath 1.0 location path in abbreviated syntax
(section 2.5 of the W3C XPath 1.0 Recommendation). A step holds:

- a path prefix;
- a tag with an optional position;
- three ordered predicate buckets: attribute equality, `contains()`, and
  generic equality;
- at most one child step.

The fluent builders `ByPath`, `ByTag`, `ByAttribute`, `ByContains`, `ByEqual`,
`AddChild` and the lazy `init` fill the element in. `String` serialises the
chain, using `Path`, `Tag`, `TagPos` and `Filters`. The tag shorthands
(`HtmlTag`, `Input`, `Div`, `Header`, …) create fresh single steps.

The model is functional:

- `Element` is an immutable datatype, and each builder returns the updated value.
- The child pointer becomes `Option<Element>`, so every chain is finite and
  acyclic.
- The parent pointer is only ever compared with nil, so it becomes the flag
  `hasParent`. `AddChild` sets that flag on the child it attaches.
- The nil-until-`init` filter map becomes `Option<Buckets>`.
- Rendering is a set of pure string functions. Defaults are resolved at render
  time:
  - an empty path becomes `//` on a step without a parent and `/` on a step
    with one;
  - an empty tag becomes `*`;
  - `[n]` follows a tag or a predicate exactly when `n > 0`.

Files:

| file | module | contents |
|---|---|---|
| `wrappers.dfy` | `Wrappers` | `Option` |
| `text.dfy` | `Text` | Go's `strings.TrimSpace` over the `unicode.IsSpace` set, and the decimal printing that `%v` does for the positional predicates |
| `element.dfy` | `Elements` | the datatypes, the builders, and their frame and commutation lemmas |
| `render.dfy` | `Compiler` | `Path`, `Tag`, `TagPos`, `Filters` and `String`, plus an iterative `Compile` proved equal to the recursive rendering |
| `properties.dfy` | `Properties` | laws across operations: defaults along a chain, predicate order, and what a rendered clause determines |
| `shorthand.dfy` | `Shorthands` | the tag-shorthand constructors |
| `vectors.dfy` | `Vectors` | the selector expressions of `main.go` and `examples.go`, with the exact strings they render |

Three facts about the code that the model keeps:

- `main.go:42` builds the heading selector with `ByContains`.
- Positions are Go `int`s. A zero or negative position renders no `[n]`.
- `AddChild` may be called again on the same element. The last child wins.


## Model

| member | source | states |
|---|---|---|
| Text.TrimSpace | base/Element.go:51 | The trimmed string is no longer than the input and starts and ends with a non-space character, using Go's `unicode.IsSpace` set |
| Text.TrimSpaceIsInfix | base/Element.go:51 | The trimmed string is a contiguous piece of the input; only white space lies before and after it |
| Text.TrimSpaceUnique | base/Element.go:51 | White space, then a core without edge white space, then white space trims to exactly that core |
| Text.TrimSpaceKeepsClean | base/Element.go:57 | A tag or path without edge white space is stored unchanged |
| Text.TrimSpaceIdempotent | base/Element.go:51 | Trimming an already trimmed path or tag changes nothing |
| Text.TrimSpaceOfSpace | base/Element.go:51 | A string made only of white space trims to the empty string |
| Text.Decimal | base/Element.go:126 | `%v` of a non-negative int is a canonical numeral (no leading zero) that reads back as the same number |
| Text.DecimalOfParse | base/Element.go:138 | Every canonical numeral is what `Decimal` prints for its value, so printing and reading are inverse |
| Text.DecimalInjective | base/Element.go:126 | Different positions print as different numerals |
| Elements.AddChild | base/Element.go:33-38 | The receiver's child becomes the argument, now marked as having a parent. The receiver's own fields are unchanged. A well-linked child gives a well-linked chain |
| Elements.Init | base/Element.go:40-48 | Afterwards the buckets exist, and their contents are what the element rendered from before. Once the buckets exist, `init` is a no-op. Nothing else changes |
| Elements.ByPath | base/Element.go:50-54 | The path becomes the trimmed argument; tag, position, filters, child and parent are unchanged |
| Elements.ByTag | base/Element.go:56-61 | The tag becomes the trimmed argument and the position the given int; everything else is unchanged |
| Elements.AddFilter | base/Element.go:63-94 | The buckets are initialised. Exactly one entry is appended to the bucket of the given kind. The other two buckets and all non-filter fields are unchanged |
| Elements.ByAttribute | base/Element.go:63-72 | Appends `(attribute, value, position)` to the attribute bucket only; the contains and equal buckets and all other fields are unchanged |
| Elements.ByContains | base/Element.go:74-83 | Appends `(option, value, position)` to the contains bucket only; the other buckets and fields are unchanged |
| Elements.ByEqual | base/Element.go:85-94 | Appends `(option, value, position)` to the equal bucket only; the other buckets and fields are unchanged |
| Elements.InitIdempotent | base/Element.go:42-47 | Calling `init` twice is calling it once, so it never clears earlier filters |
| Elements.AddFilterCommutes | base/Element.go:63-94 | Two filters of different kinds give the same element whichever is added first |
| Elements.AddChildLastWins | base/Element.go:33-38 | A second `AddChild` completely replaces the first child |
| Elements.BuildersKeepWellLinked | base/Element.go:33-94 | The zero value is well linked (every step below the top has a parent). Every builder keeps a chain well linked |
| Compiler.PosSuffix | base/Element.go:124-130 | Empty exactly when the position is at most 0. Otherwise it starts with `[` and ends with `]` |
| Compiler.PosSuffixNumeral | base/Element.go:124-130 | For a positive position, what lies between the brackets is a canonical numeral that reads back as the position |
| Compiler.PathOf | base/Element.go:105-114 | A non-empty path is emitted verbatim. An empty path gives `//` exactly when there is no parent and `/` exactly when there is one |
| Compiler.TagPosOf | base/Element.go:124-130 | Empty exactly when the tag position is at most 0 |
| Compiler.TagShape | base/Element.go:116-122 | Never empty. Starts with the tag, or with `*` when the tag is empty. Ends with the tag's positional predicate |
| Compiler.Clause | base/Element.go:135-157 | A predicate starts with `[` and ends with its own positional predicate |
| Compiler.Clauses | base/Element.go:133-159 | A bucket's predicates are empty exactly when the bucket is empty |
| Compiler.FiltersOf | base/Element.go:132-160 | `Filters()` is empty exactly when all three buckets are empty, including the nil map |
| Compiler.Steps | base/Element.go:96-103 | The chain rendered by `String` is the receiver, then each child in turn, ending at a step without a child |
| Compiler.RenderIsStepConcat | base/Element.go:96-103 | `String` is the concatenation of every step's `Path() + Tag() + Filters()` along the chain |
| Compiler.Compile | base/Element.go:96-103 | Walking the chain top-down with a loop produces exactly the recursive `String` |
| Properties.RenderComposition | base/Element.go:96-103 | `String` is `Path() + Tag() + Filters()`, then the child's `String` if there is a child, and nothing otherwise |
| Properties.PathCacheInvisible | base/Element.go:105-114 | `Path()` writes its default into the copy it renders. Rendering after that write is the same as before it |
| Properties.WellLinkedSteps | base/Element.go:33-38 | A chain is well linked exactly when every step below the top has its parent set |
| Properties.ChainPaths | base/Element.go:105-114 | In a well-linked chain, an empty path resolves to `//` at a top without a parent and to `/` at every lower step. Explicit paths are kept |
| Properties.ByPathBlankDefaults | base/Element.go:50-54 | A `ByPath` argument made only of white space leaves the path empty, so the default `//` or `/` is rendered |
| Properties.ByPathVerbatim | base/Element.go:105-114 | A non-blank `ByPath` is rendered trimmed and verbatim, with or without a parent and after `AddChild` |
| Properties.ByTagRender | base/Element.go:116-122 | After `ByTag`, `Tag()` is the trimmed tag, or `*` when it is blank, followed by `[n]` for positive `n` |
| Properties.RenderAddChild | base/Element.go:99-101 | After `AddChild`, the rendering is the parent's step, then the child rendered as a step with a parent; an empty child path renders `/` |
| Properties.RenderLastChildWins | base/Element.go:33-38 | After two `AddChild` calls only the second child appears in the output |
| Properties.ApplyCallsBuckets | base/Element.go:63-94 | After any sequence of filter calls, each bucket holds its old contents followed by exactly the filters of its kind, in call order |
| Properties.ApplyCallsFrame | base/Element.go:63-94 | Any sequence of filter calls changes only the filter map, and initialises it as soon as there is one call |
| Properties.BlankBuckets | base/Element.go:63-94 | Starting from the zero value, the three buckets are exactly the calls of each kind, in call order |
| Properties.FiltersFollowKindOrder | base/Element.go:132-160 | However the calls were interleaved, `Filters()` renders all attribute predicates first, then all contains predicates, then all equal predicates, each run in call order |
| Properties.InterleavingIrrelevant | base/Element.go:63-94 | Two call sequences that agree kind by kind build the same element |
| Properties.PosSuffixInjective | base/Element.go:137-139 | Two positional predicates are equal only when both are absent or both positions are equal |
| Properties.ClauseInjective | base/Element.go:140-156 | If keys and values contain no double quote, a rendered predicate determines its key and value, and its position whenever that is positive |
| Properties.QuoteInjection | base/Element.go:140 | Values are not escaped: one attribute filter whose value contains quotes renders the same as two separate filters |
| Shorthands.HtmlTag | base/Element.go:162-165 | A fresh zero-value element whose only settings are the trimmed tag and its position |
| Shorthands.Submit | base/Element.go:167-170 | A zero-value element with only the tag `submit` and the position set; it renders as `//submit` followed by `[n]` for a positive position |
| Shorthands.Button | base/Element.go:172-176 | A zero-value element with only the tag `button` and the position set; it renders as `//button` followed by `[n]` for a positive position |
| Shorthands.Input | base/Element.go:178-181 | A zero-value element with only the tag `input` and the position set; it renders as `//input` followed by `[n]` for a positive position |
| Shorthands.Textarea | base/Element.go:183-186 | A zero-value element with only the tag `textarea` and the position set; it renders as `//textarea` followed by `[n]` for a positive position |
| Shorthands.Paragraph | base/Element.go:188-191 | A zero-value element with only the tag `p` and the position set; it renders as `//p` followed by `[n]` for a positive position |
| Shorthands.Div | base/Element.go:193-196 | A zero-value element with only the tag `div` and the position set; it renders as `//div` followed by `[n]` for a positive position |
| Shorthands.Header | base/Element.go:198-201 | A zero-value element with only the tag `h1` and the position set; it renders as `//h1` followed by `[n]` for a positive position |
| Shorthands.Header2 | base/Element.go:203-206 | A zero-value element with only the tag `h2` and the position set; it renders as `//h2` followed by `[n]` for a positive position |
| Shorthands.Header3 | base/Element.go:208-211 | A zero-value element with only the tag `h3` and the position set; it renders as `//h3` followed by `[n]` for a positive position |
| Shorthands.Header4 | base/Element.go:213-216 | A zero-value element with only the tag `h4` and the position set; it renders as `//h4` followed by `[n]` for a positive position |
| Shorthands.TagOnlyRender | base/Element.go:162-216 | A fresh shorthand element renders as `//`, then its tag (or `*`), then its positional predicate |
| Vectors.TwoFilters | base/Element.go:132-160 | Two filters added to one bucket render in the order they were added |
| Vectors.ContainsThenAttribute | base/Element.go:132-160 | A contains filter added before an attribute filter still renders after it |
| Vectors.InputById | examples.go:18 | `Input(0).ByPath("//").ByAttribute("id", "fname", 0)` renders `//input[@id="fname"]` |
| Vectors.AnchorContains | examples.go:39 | `HtmlTag("a", 0).ByContains("@class", "w3-btn", 0)` renders `//a[contains(@class,"w3-btn")]` |
| Vectors.SubmitInput | examples.go:42 | `Input(0).ByPath("//")` with attribute filters `type=submit` and `value=Submit` renders `//input[@type="submit"][@value="Submit"]` |
| Vectors.HeaderText | main.go:42 | `Header(0).ByContains("text()", "Example Domain", 0)` renders `//h1[contains(text(),"Example Domain")]` |
| Vectors.NestedChain | examples.go:33 | The html/body/div/anchor chain renders `//html/body/div[@class="w3-container top"]/a[contains(@class,"w3schools-logo")]` |
| Vectors.PositionsAndOrder | base/Element.go:116-160 | A padded, positioned tag with a contains filter added before a positioned attribute filter renders `//a[2][@id="x"][3][contains(@class,"w3-btn")]` |

## Left out

- `base/SiteManager.go`, which drives a browser through chromedp. It covers navigation, timeouts, screenshots written to files, key events and panics. It is all I/O, so it is not part of this model.
- `main.go` and `examples.go` only orchestrate the browser driver. Their selector expressions appear as the vectors above. Everything else in them is left out.
- The device tables in `base/SiteManager.go` and `main.go` are configuration holding floating-point values.
- `examples.go` calls `Html`, `Body` and `Anchor`, which `base/Element.go` does not define. The vector `Vectors.NestedChain` writes them as `HtmlTag("html", 0)`, `HtmlTag("body", 0)` and `HtmlTag("a", 0)`.
- The `fromRoot` field is written by `Path()` and never read, so it has no effect on any output.
- Pointer identity cannot be expressed over immutable values. Each builder returns an updated value rather than the same pointer. The following hazards of the Go code are excluded by construction:
  - `AddChild(nil)` panics at base/Element.go:35;
  - cycles such as `e.AddChild(e)` make `String` recurse forever;
  - a replaced child keeps a stale parent pointer;
  - a node can be aliased under two parents;
  - a mutation made through a pointer after attaching shows up in the parent's output.
- Calling `Path()` directly on a `*Element` stores the default in the element, and that stored default survives a later `AddChild`. Only the path through `String`, which renders copies, is modelled (`Properties.PathCacheInvisible`).
- Go's `int` is 32 or 64 bits wide, depending on the platform. Positions are only compared with 0 and printed, never computed with, so unbounded integers agree with it on every representable position.
- Strings are sequences of Unicode scalar values. Go strings holding invalid UTF-8 are not represented. On valid UTF-8, `TrimSpace` and concatenation agree with Go.
- Whether the output is valid XPath and what it would select are not modelled. Values are not escaped (`Properties.QuoteInjection`), and `ByPath` accepts any string.
