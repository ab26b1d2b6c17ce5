/** The 2D drawing context the layout draws on, reduced to what the layout
    uses of it: the current font, the stroke width, text measurement and a
    log of the drawing operations issued so far. */
module Surface {

  datatype Weight = Normal | Bold

  /** The parts of the CSS font string the layout composes: an italic
      flag, a weight and a pixel size (the face name is not modelled). */
  datatype Font = Font(italic: bool, weight: Weight, px: int)

  /** Text measurement: the advance width of a string drawn in a font. */
  type Measure = (Font, string) -> nat

  /** One drawing operation issued on the context. */
  datatype DrawOp =
    | Clear(x: int, y: int, w: int, h: int)
    | Fill(text: string, x: int, y: int, font: Font)
      /** a stroked straight path: beginPath, moveTo, lineTo, stroke */
    | Stroke(x1: int, y1: int, x2: int, y2: int, lineWidth: int)

  /** The text a drawing operation writes. */
  function TextOf(op: DrawOp): string
  {
    if op.Fill? then op.text else ""
  }

  /** All text drawn by a log of operations, in drawing order. */
  function Texts(ops: seq<DrawOp>): string
  {
    if |ops| == 0 then "" else Texts(ops[..|ops| - 1]) + TextOf(ops[|ops| - 1])
  }

  lemma {:induction false} SnocTexts(ops: seq<DrawOp>, op: DrawOp)
    ensures Texts(ops + [op]) == Texts(ops) + TextOf(op)
  {
    assert (ops + [op])[..|ops|] == ops;
  }

  /** The line width the context holds after `lineWidth = w`: the context
      ignores a width that is zero or negative and keeps the one it had. */
  function LineWidthAfter(current: int, w: int): int
  {
    if w > 0 then w else current
  }

  /** The font the context holds after `font = f`: a negative pixel size
      makes the font string invalid, and the context keeps the font it had. */
  function FontAfter(current: Font, f: Font): Font
  {
    if f.px >= 0 then f else current
  }

  class Canvas {
    const width: int
    const height: int
    const measure: Measure
    var font: Font
    var lineWidth: int
    var ops: seq<DrawOp>

    constructor (width: int, height: int, measure: Measure, font: Font)
      ensures this.width == width && this.height == height && this.measure == measure
      ensures this.font == font && lineWidth == 1 && ops == []
    {
      this.width := width;
      this.height := height;
      this.measure := measure;
      this.font := font;
      lineWidth := 1;
      ops := [];
    }

    /** `measureText(text).width` in the current font. */
    function MeasureText(text: string): nat
      reads this
    {
      measure(font, text)
    }

    /** The `lineWidth` setter. */
    method SetLineWidth(w: int)
      modifies this
      ensures w > 0 ==> lineWidth == w
      ensures w <= 0 ==> lineWidth == old(lineWidth)
      ensures lineWidth == LineWidthAfter(old(lineWidth), w)
      ensures font == old(font) && ops == old(ops)
    {
      if w > 0 {
        lineWidth := w;
      }
    }

    /** The `font` setter. */
    method SetFont(f: Font)
      modifies this
      ensures f.px >= 0 ==> font == f
      ensures f.px < 0 ==> font == old(font)
      ensures font == FontAfter(old(font), f)
      ensures lineWidth == old(lineWidth) && ops == old(ops)
    {
      if f.px >= 0 {
        font := f;
      }
    }

    method ClearRect(x: int, y: int, w: int, h: int)
      modifies this
      ensures ops == old(ops) + [Clear(x, y, w, h)]
      ensures font == old(font) && lineWidth == old(lineWidth)
    {
      ops := ops + [Clear(x, y, w, h)];
    }

    method FillText(text: string, x: int, y: int)
      modifies this
      ensures ops == old(ops) + [Fill(text, x, y, font)]
      ensures font == old(font) && lineWidth == old(lineWidth)
    {
      ops := ops + [Fill(text, x, y, font)];
    }

    /** A path from (x1, y1) to (x2, y2), stroked at the current line width. */
    method StrokeLine(x1: int, y1: int, x2: int, y2: int)
      modifies this
      ensures ops == old(ops) + [Stroke(x1, y1, x2, y2, lineWidth)]
      ensures font == old(font) && lineWidth == old(lineWidth)
    {
      ops := ops + [Stroke(x1, y1, x2, y2, lineWidth)];
    }
  }
}
