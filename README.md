# markdowncanvas layout walk, modelled in Dafny

markdowncanvas draws a markdown document on an HTML canvas. The markdown-it
parser produces a flat list of tokens, some of which (the `inline` tokens)
carry children. `markdownToCanvas` builds a state record from the options:

- `useBreaks`, `baseSize`, `curFont` and `scale`;
- the cursor `curX`, `curY`;
- the style `curSize`, `curWeight`, `curItalic`.

It clears the canvas and hands every token to `renderInstruction`. That
function works as follows:

- A token with children is replaced by its children, in order.
- Heading, paragraph-end, rule and break tokens move the cursor by fixed
  amounts and set the heading sizes.
- Strong and emphasis tokens switch the weight and the italic flag.
- Every other token goes to text placement. Text placement selects the font
  and splits the content on single spaces. Each word but the last gets its
  space back. Each word is measured and moved to the next line when it would
  cross the canvas width; then it is drawn at the cursor.

`wrapText` is a separate helper. It splits a string greedily into lines;
every line holding two or more words measures at most `maxWidth`.

The files:

- `strings.dfy` (module `Strings`): `split(" ")`, `join(" ")` and `trim()`
  with JavaScript's meaning, and their round trips.
- `surface.dfy` (module `Surface`): the canvas context as a class. Its fields
  are the current font, the stroke width and a log of drawing operations
  (`Clear`, `Fill`, `Stroke`). The `lineWidth` and `font` setters are methods
  that keep the old value when the new one is invalid. Text measurement is a function value
  `Measure = (Font, string) -> nat` that the context holds.
- `wrap.dfy` (module `WordWrap`): `wrapText` as a method with its loop. It is
  proved equal to a grouping function, `Groups`. `Groups` is proved equal to
  every wrapping that satisfies an independent greedy description,
  `IsGreedyWrap`, in both directions.
- `layout.dfy` (module `Layout`): the token datatype and the options. The
  state record is the class `RenderState`; the fields the walk never writes
  are constants. `RenderInstruction`, `PlaceWords` and `MarkdownToCanvas`
  are methods with the source's loops. Each method is proved against a
  specification function over a `Snapshot` value (`Render`, `RenderAll`,
  `LayWords`, `Document`).
- `layout_lemmas.dfy` (module `LayoutProperties`): the properties of those
  functions.

Modelling decisions:

- Widths and coordinates are integers. `Math.round(b * k)` is computed
  exactly as `(2·num + den) / (2·den)`, taking num/den = 5b/2, 2b/1, 3b/2,
  5b/4 and b/1 for h1 to h5.
- `options.x || d` treats an absent option and the falsy values 0, `""` and
  `false` alike. As written, `useBreaks: options.useBreaks || true` is
  therefore always true, and the model keeps that.
- The markdown-it parser is the parameter `parse: string -> seq<Token>`.
- Later versions of markdowncanvas add a line buffer that commits each line,
  extra gaps after headings and paragraphs, lists, blockquotes and images;
  src/index.js has none of them. Its advances are fixed multiples of
  `(curSize + 2) * scale`, and `12 * scale` after a rule.
- The context's `lineWidth` and `font` setters ignore values the context
  rejects: a width of zero or less, and a font string with a negative pixel
  size. The model keeps the previous value in both cases.

## Model

| member | source | states |
|---|---|---|
| Strings.Split | src/index.js:165 | `split(" ")` always returns at least one piece, and no piece contains a space |
| Strings.Join | src/index.js:165 | no contract; `join(" ")`, the partner of `split(" ")`; fixed by `Strings.JoinSplit` and `Strings.SplitJoin` |
| Strings.JoinSplit | src/index.js:165 | joining the split pieces with single spaces gives back the string |
| Strings.SplitJoin | src/index.js:165 | splitting the join of space-free words gives back the words (the inverse direction) |
| Strings.Pieces | src/index.js:167-172 | no contract; every word but the last with its space restored; fixed by `Strings.FlattenPieces` |
| Strings.FlattenPieces | src/index.js:167-172 | the pieces (every word but the last with its space restored) concatenate to the words joined by single spaces |
| Strings.Spaced | src/index.js:197-206 | no contract; words each followed by one space, as the wrap loop builds a line; fixed by `Strings.SpacedJoin` |
| Strings.SpacedJoin | src/index.js:197 | each word followed by one space is the space-joined words plus one trailing space |
| Strings.Trim | src/index.js:163 | no contract; `trim()`, white space and line terminators removed from both ends; fixed by `Strings.TrimEmptyIffBlank` |
| Strings.TrimStartEmpty | src/index.js:163 | trimming the start leaves nothing exactly when every character is white space |
| Strings.TrimEndEmpty | src/index.js:163 | trimming the end leaves nothing exactly when every character is white space |
| Strings.TrimStartKeepsBlank | src/index.js:163 | trimming the start keeps a string blank exactly when it was blank |
| Strings.TrimEmptyIffBlank | src/index.js:163 | `trim().length > 0` fails exactly when every character is ECMAScript white space or a line terminator |
| Surface.Canvas.MeasureText | src/index.js:174 | no contract; `measureText(word).width` in the current font, fixed by the `ensures` of `Layout.RenderState.PlaceWords`, which measures with it |
| Surface.LineWidthAfter | src/index.js:106 | no contract; the width the context keeps after an assignment; fixed by the `ensures` of `Surface.Canvas.SetLineWidth` |
| Surface.FontAfter | src/index.js:161 | no contract; the font the context keeps after an assignment; fixed by the `ensures` of `Surface.Canvas.SetFont` |
| Surface.Canvas.SetLineWidth | src/index.js:106 | assigning `lineWidth` takes a positive width and keeps the previous width for zero or a negative one; font and log are unchanged |
| Surface.Canvas.SetFont | src/index.js:161 | assigning `font` takes a font with a non-negative pixel size and keeps the previous font otherwise; line width and log are unchanged |
| Surface.Canvas.ClearRect | src/index.js:26 | clearing appends one `Clear` operation and changes nothing else |
| Surface.Canvas.FillText | src/index.js:183 | drawing text appends one `Fill` in the current font and changes nothing else |
| Surface.Canvas.StrokeLine | src/index.js:108-111 | a path moved and lined between two points appends one `Stroke` at the current line width |
| WordWrap.Groups | src/index.js:196-210 | the line grouping has no more lines than words, and at least one line when there is a word |
| WordWrap.Lines | src/index.js:203-212 | no contract; each group of words as the line string the loop pushes; fixed by `WordWrap.WrapText` and `WordWrap.WrapCoversText` |
| WordWrap.WrapText | src/index.js:190-213 | returns the lines of the greedy grouping of `text.split(" ")`; between one line and one line per word; the lines concatenate to `text` plus one space |
| WordWrap.WrapCoversText | src/index.js:191-212 | the grouped lines of `text.split(" ")` number between one and one per word, and concatenate to `text` plus one space |
| WordWrap.GroupsFirst | src/index.js:196-206 | the first word makes the first line, whatever its width |
| WordWrap.GroupsBreak | src/index.js:202-204 | a later word that makes the current line too wide pushes that line and starts a new one with the word |
| WordWrap.GroupsJoin | src/index.js:205-206 | a later word that fits is appended to the current line, which is otherwise unchanged |
| WordWrap.WrapIsGreedy | src/index.js:196-208 | the grouping holds the words in order, no line is empty, each added word passed the fit test, and each break was forced by an overflow |
| WordWrap.GreedyIsWrap | src/index.js:196-208 | any grouping meeting that greedy description is the loop's grouping, so the description determines the lines |
| WordWrap.GreedyBreak | src/index.js:202-204 | a word whose addition overflows starts a new line, and the wrapping stays greedy |
| WordWrap.GreedyJoin | src/index.js:205-206 | a word whose addition fits joins the current line, and the wrapping stays greedy |
| WordWrap.LongLinesFit | src/index.js:197-207 | a line holding two or more words measures at most `maxWidth`; only a single-word line can be wider |
| WordWrap.FirstWordStaysFirst | src/index.js:202 | there is never a break before the first word: the first line starts with it |
| Layout.OrNumber | src/index.js:11-19 | no contract; the JavaScript or-default for a number option, where an absent option and 0 both give the fallback; fixed by `LayoutProperties.OptionDefaults` |
| Layout.OrString | src/index.js:12 | no contract; the or-default for `options.font`, where an absent font and `""` both give `"serif"`; fixed by `LayoutProperties.OptionDefaults` |
| Layout.OrBool | src/index.js:10 | no contract; the or-default for `options.useBreaks` with fallback `true`, which is therefore always true; fixed by `LayoutProperties.OptionDefaults` |
| Layout.RoundHalfUp | src/index.js:64-80 | the result is the integer nearest to num/den, with halves rounded up, as `Math.round` does |
| Layout.IsControl | src/index.js:54-153 | no contract; the token types that return before text placement; fixed by `LayoutProperties.ControlDrawsNothing` and `LayoutProperties.TextPlacesPieces` |
| Layout.FontOf | src/index.js:155-161 | no contract; the italic flag, weight and `curSize * scale` pixel size composed into the font; fixed by `LayoutProperties.BlankTextPlacesNothing` |
| Layout.HeadingSize | src/index.js:59-81 | no contract; the size `heading_open` selects; fixed by `LayoutProperties.HeadingSizeTable` and `LayoutProperties.DefaultHeadingSizes` |
| Layout.Render | src/index.js:39-47 | no contract; a token with children is its children, any other token is `Leaf`; fixed by `LayoutProperties.ChildrenReplaceParent`, `LayoutProperties.RenderTexts`, `LayoutProperties.RenderMonotone` and `LayoutProperties.RenderWithin` |
| Layout.RenderAll | src/index.js:33-36 | no contract; tokens rendered one after the other; fixed by `LayoutProperties.RenderAllTexts`, `LayoutProperties.RenderAllMonotone` and `LayoutProperties.RenderAllWithin` |
| Layout.Leaf | src/index.js:49-187 | no contract; the effect of a token without children, branch by branch; fixed by `LayoutProperties.HeadingEffects`, `LayoutProperties.VerticalAdvances`, `LayoutProperties.StyleOnlyTokens`, `LayoutProperties.BlankTextPlacesNothing` and `LayoutProperties.TextPlacesPieces` |
| Layout.LayWords | src/index.js:167-186 | no contract; the pieces placed in order; fixed by `LayoutProperties.LayWordsTexts`, `LayoutProperties.LayWordsMonotone` and `LayoutProperties.LayWordsWithin` |
| Layout.LayWord | src/index.js:174-185 | no contract; one piece measured, wrapped and drawn; fixed by `LayoutProperties.PlaceWordRule` |
| Layout.StartEnv | src/index.js:10-19 | no contract; the option-derived fields `useBreaks`, `baseSize`, `scale` with the canvas width and metrics; fixed by `LayoutProperties.DocumentStart` |
| Layout.Start | src/index.js:13-24 | no contract; the cursor and style a render starts from; fixed by `LayoutProperties.DocumentStart` |
| Layout.Document | src/index.js:5-37 | no contract; the canvas cleared, then every token rendered from the start state; fixed by `LayoutProperties.DocumentLayout` and the `ensures` of `Layout.MarkdownToCanvas` |
| Layout.RenderState.constructor | src/index.js:9-24 | the state record starts from the options with defaults 14, "serif" and 1; `useBreaks` is always true; the cursor starts at x = 0, y = curSize·scale |
| Layout.RenderState.RenderInstruction | src/index.js:39-188 | the new cursor, style, font, line width and drawing log are those of `Render` applied to the old ones |
| Layout.RenderState.PlaceWords | src/index.js:163-187 | the word loop leaves the state that placing the pieces of the words one by one gives |
| Layout.MarkdownToCanvas | src/index.js:5-37 | the canvas ends in the state of `Document`: cleared, then every parsed token rendered in order from the initial record |
| LayoutProperties.HeadingSizeTable | src/index.js:55-82 | h1 to h5 select round(base×2.5, 2.0, 1.5, 1.25, 1.0); any other tag selects `baseSize`; a non-negative base gives a non-negative size |
| LayoutProperties.DefaultHeadingSizes | src/index.js:62-82 | for base size 14 the heading sizes are 35, 28, 21, 18, 14, and 14 for h6 |
| LayoutProperties.ChildrenReplaceParent | src/index.js:40-47 | a token with children does nothing itself; its own type, tag and content are ignored and its children are rendered in order |
| LayoutProperties.HeadingEffects | src/index.js:49-95 | heading_open sets x = 0, bold and the heading size; heading_close sets x = 0, normal and `baseSize`; both go down by `(curSize+2)·scale` taken before the change; nothing else changes |
| LayoutProperties.VerticalAdvances | src/index.js:98-132 | paragraph_close goes down 2 line heights; hardbreak, and softbreak when `useBreaks` is set, go down 1; hr sets the line width to `scale` when it is positive (otherwise keeps it), strokes across the canvas at `curY − 12·scale` with that width and goes down `12·scale`; all return to x = 0 |
| LayoutProperties.StyleOnlyTokens | src/index.js:134-152 | strong_open/strong_close change only the weight; em_open/em_close change only the italic flag |
| LayoutProperties.BlankTextPlacesNothing | src/index.js:155-163 | a text whose content is empty or white space only selects the font (kept unchanged when `curSize·scale` is negative) and draws nothing; cursor and style are unchanged |
| LayoutProperties.TextPlacesPieces | src/index.js:161-186 | a text token with visible content selects the font and places the pieces of its content, with the line height taken before the token |
| LayoutProperties.PlaceWordRule | src/index.js:174-185 | a word that would cross the canvas width is drawn at x = 0 exactly one line height down, otherwise at the cursor; afterwards curX is the draw x plus the word's width |
| LayoutProperties.LayWordsTexts | src/index.js:167-186 | placing pieces draws exactly their concatenation, in order |
| LayoutProperties.TextRoundTrip | src/index.js:163-186 | the words drawn for a non-blank text concatenate to its content exactly |
| LayoutProperties.ControlDrawsNothing | src/index.js:55-152 | every handled token type except `hr` leaves the drawing log unchanged |
| LayoutProperties.RenderTexts | src/index.js:39-188 | one token (with its children) draws exactly its visible text |
| LayoutProperties.RenderAllTexts | src/index.js:33-47 | a token list draws exactly the visible text of its tokens, in document order |
| LayoutProperties.LayWordsMonotone | src/index.js:176-179 | placing words never moves the cursor up and keeps the size |
| LayoutProperties.RenderMonotone | src/index.js:49-185 | with non-negative scale and sizes, no token moves `curY` up, and the sizes stay non-negative |
| LayoutProperties.RenderAllMonotone | src/index.js:33-47 | with non-negative scale and sizes, `curY` never decreases over a token list |
| LayoutProperties.LayWordsWithin | src/index.js:174-185 | word placement only appends, and every word it draws starts at x = 0 or ends within the canvas width |
| LayoutProperties.RenderWithin | src/index.js:39-188 | a token only appends to the drawing log, and every word starts at x = 0 or fits within the width |
| LayoutProperties.RenderAllWithin | src/index.js:33-47 | the same holds for a token list |
| LayoutProperties.DocumentStart | src/index.js:9-24 | `useBreaks` is always true; absent size and scale give 14 and 1; the cursor starts at x = 0, y = curSize·scale, normal weight, not italic |
| LayoutProperties.OptionDefaults | src/index.js:10-19 | `baseSize`, `scale` and `font` take 14, 1 and "serif" when absent, 0 or empty and keep any other value; `useBreaks` is always true |
| LayoutProperties.DocumentLayout | src/index.js:5-37 | after the clear, a document draws exactly its visible text in order, every word starts a line or fits within the width, and with non-negative size and scale `curY` ends at or below its start |

## Left out

- The markdown-it parser (src/index.js:1-3, 28). It is a foreign library, so the model takes its output as the parameter `parse`.
- MarkdownToCanvas: always takes an options record. Called without `options`, src/index.js:10 reads a property of `undefined` and throws a TypeError before anything is drawn; the model has no such call.
- `console.log` (src/index.js:30-31): debugging output only.
- The font face. The font string names the undefined `curFace` (src/index.js:161), so the face is not modelled. A `Font` records only the italic flag, the weight and the pixel size, and measurement is an uninterpreted function of that record and the text.
- Strings. JavaScript strings are sequences of UTF-16 code units, and a Dafny `string` is a sequence of Unicode scalar values, so a lone surrogate cannot be represented. `split(" ")` and `trim()` act the same on every string that can be represented, so the layout loses nothing it relies on.
- Floating point. Widths, the scale and sizes are integers, and text metrics are whole pixels. A fractional `scale` or fractional widths are not modelled.
- Rendering. The context's drawing calls are appended to a log instead of rasterised. `beginPath`/`moveTo`/`lineTo`/`stroke` are one `Stroke` operation.
- `getContext` is called twice and returns the same context. The model uses one `Canvas` object for both.
- The `curText` and `curFont` fields are kept as constants; the walk never reads them.
- webpack.common.cjs: build configuration, with no logic.
- Lists, blockquotes, images, the image cache, alignment, backgrounds and the line buffer. They appear in later designs of this renderer but not in src/index.js.
