/** `markdownToCanvas` and `renderInstruction`: the walk over the parsed
    token list that keeps a cursor and a style and draws each word of text
    at the cursor, wrapping at the canvas width. */
module Layout {
  import opened Strings
  import opened Surface

  datatype Option<T> = None | Some(value: T)

  /** A markdown-it token: its `type`, its `tag`, its `content` and its
      `children` (an absent children array is the empty sequence, an absent
      content the empty string). */
  datatype Token = Token(kind: string, tag: string, content: string, children: seq<Token>)

  /** The caller's options; an absent field is `None`. */
  datatype Options = Options(useBreaks: Option<bool>, baseSize: Option<int>, font: Option<string>, scale: Option<int>)

  /** `value || fallback` for a number: absent and 0 are falsy. */
  function OrNumber(o: Option<int>, fallback: int): int
  {
    if o.Some? && o.value != 0 then o.value else fallback
  }

  /** `value || fallback` for a string: absent and "" are falsy. */
  function OrString(o: Option<string>, fallback: string): string
  {
    if o.Some? && o.value != "" then o.value else fallback
  }

  /** `value || fallback` for a boolean. */
  function OrBool(o: Option<bool>, fallback: bool): bool
  {
    (o.Some? && o.value) || fallback
  }

  /** `r` is the integer nearest to `num / den`, a half rounded up. */
  predicate IsRounded(r: int, num: int, den: int)
  {
    2 * den * r - den <= 2 * num < 2 * den * r + den
  }

  /** `Math.round(num / den)`: the integer nearest to `num / den`, halves
      rounded up. */
  function RoundHalfUp(num: int, den: int): (r: int)
    requires den > 0
    ensures IsRounded(r, num, den)
  {
    var q := (2 * num + den) / (2 * den);
    var m := (2 * num + den) % (2 * den);
    assert 2 * num + den == (2 * den) * q + m;
    q
  }

  /** The font size `heading_open` selects: `baseSize` scaled by 2.5, 2.0,
      1.5, 1.25 and 1.0 for h1 to h5 and rounded; `baseSize` for any other
      tag. */
  function HeadingSize(baseSize: int, tag: string): int
  {
    if tag == "h1" then RoundHalfUp(5 * baseSize, 2)
    else if tag == "h2" then RoundHalfUp(2 * baseSize, 1)
    else if tag == "h3" then RoundHalfUp(3 * baseSize, 2)
    else if tag == "h4" then RoundHalfUp(5 * baseSize, 4)
    else if tag == "h5" then RoundHalfUp(baseSize, 1)
    else baseSize
  }

  /** What stays fixed during one render: the option-derived fields of the
      state record and the canvas width and text metrics. */
  datatype Env = Env(useBreaks: bool, baseSize: int, scale: int, canvasWidth: int, measure: Measure)

  /** The part of the render state and of the canvas that tokens change. */
  datatype Snapshot = Snapshot(
    curSize: int, curWeight: Weight, curItalic: bool, curX: int, curY: int,
    font: Font, lineWidth: int, ops: seq<DrawOp>)

  /** The token types `renderInstruction` handles itself; every other
      token goes on to text placement. */
  predicate IsControl(kind: string)
  {
    kind == "heading_open" || kind == "heading_close" || kind == "paragraph_close" || kind == "hr"
    || kind == "softbreak" || kind == "hardbreak" || kind == "strong_open" || kind == "strong_close"
    || kind == "em_open" || kind == "em_close"
  }

  /** The font composed before text placement. */
  function FontOf(env: Env, s: Snapshot): Font
  {
    Font(s.curItalic, s.curWeight, s.curSize * env.scale)
  }

  /** The effect of one token: a token with children is replaced by its
      children, in order. */
  function Render(env: Env, s: Snapshot, t: Token): Snapshot
    decreases t, 1
  {
    if |t.children| > 0 then RenderAll(env, s, t.children) else Leaf(env, s, t)
  }

  /** The effect of a sequence of tokens, in order. */
  function RenderAll(env: Env, s: Snapshot, ts: seq<Token>): Snapshot
    decreases ts, 0
  {
    if |ts| == 0 then s else RenderAll(env, Render(env, s, ts[0]), ts[1..])
  }

  /** The effect of a token without children. `lineHeight` is computed
      from the size in force before the token. */
  function Leaf(env: Env, s: Snapshot, t: Token): Snapshot
  {
    var lineHeight := (s.curSize + 2) * env.scale;
    if t.kind == "heading_open" then
      s.(curX := 0, curSize := HeadingSize(env.baseSize, t.tag), curWeight := Bold, curY := s.curY + lineHeight)
    else if t.kind == "heading_close" then
      s.(curY := s.curY + lineHeight, curX := 0, curSize := env.baseSize, curWeight := Normal)
    else if t.kind == "paragraph_close" then
      s.(curY := s.curY + lineHeight * 2, curX := 0)
    else if t.kind == "hr" then
      var y := s.curY - env.scale * 12;
      var lw := LineWidthAfter(s.lineWidth, env.scale);
      s.(lineWidth := lw, ops := s.ops + [Stroke(0, y, env.canvasWidth, y, lw)],
         curY := s.curY + env.scale * 12, curX := 0)
    else if t.kind == "softbreak" then
      if env.useBreaks then s.(curY := s.curY + lineHeight, curX := 0) else s
    else if t.kind == "hardbreak" then
      s.(curY := s.curY + lineHeight, curX := 0)
    else if t.kind == "strong_open" then s.(curWeight := Bold)
    else if t.kind == "strong_close" then s.(curWeight := Normal)
    else if t.kind == "em_open" then s.(curItalic := true)
    else if t.kind == "em_close" then s.(curItalic := false)
    else
      var s' := s.(font := FontAfter(s.font, FontOf(env, s)));
      if |Trim(t.content)| > 0 then LayWords(env, s', Pieces(Split(t.content)), lineHeight) else s'
  }

  /** Placing the pieces of a text, one after the other. */
  function LayWords(env: Env, s: Snapshot, pieces: seq<string>, lineHeight: int): Snapshot
    decreases |pieces|
  {
    if |pieces| == 0 then s else LayWords(env, LayWord(env, s, pieces[0], lineHeight), pieces[1..], lineHeight)
  }

  /** Placing the pieces from `i` on is placing piece `i`, then the rest. */
  lemma LayWordsStep(env: Env, s: Snapshot, pieces: seq<string>, i: int, lineHeight: int)
    requires 0 <= i < |pieces|
    ensures LayWords(env, s, pieces[i..], lineHeight)
            == LayWords(env, LayWord(env, s, pieces[i], lineHeight), pieces[i + 1..], lineHeight)
  {
    assert pieces[i..][1..] == pieces[i + 1..];
  }

  /** Placing one piece: move to the start of the next line when the piece
      would cross the canvas width, draw it, advance past it. */
  function LayWord(env: Env, s: Snapshot, word: string, lineHeight: int): Snapshot
  {
    var w := env.measure(s.font, word);
    var t := if s.curX + w > env.canvasWidth then s.(curX := 0, curY := s.curY + lineHeight) else s;
    t.(ops := t.ops + [Fill(word, t.curX, t.curY, t.font)], curX := t.curX + w)
  }

  /** The fixed part of a render started with `options`. */
  function StartEnv(options: Options, canvasWidth: int, measure: Measure): Env
  {
    Env(OrBool(options.useBreaks, true), OrNumber(options.baseSize, 14), OrNumber(options.scale, 1), canvasWidth, measure)
  }

  /** The state a render starts from, over a canvas in the given state. */
  function Start(options: Options, font: Font, lineWidth: int, ops: seq<DrawOp>): Snapshot
  {
    var size := OrNumber(options.baseSize, 14);
    Snapshot(size, Normal, false, 0, size * OrNumber(options.scale, 1), font, lineWidth, ops)
  }

  /** The whole of `markdownToCanvas` on parsed `tokens`: clear the canvas,
      then render every token in order. */
  function Document(options: Options, width: int, height: int, measure: Measure,
                    font: Font, lineWidth: int, ops: seq<DrawOp>, tokens: seq<Token>): Snapshot
  {
    RenderAll(StartEnv(options, width, measure), Start(options, font, lineWidth, ops + [Clear(0, 0, width, height)]), tokens)
  }

  /** The state record `markdownToCanvas` builds and `renderInstruction`
      updates. Fields the walk never writes are constants. */
  class RenderState {
    const useBreaks: bool
    const baseSize: int
    const curFont: string
    var curSize: int
    var curWeight: Weight
    var curItalic: bool
    var curX: int
    var curY: int
    const curText: string
    const scale: int
    const canvas: Canvas

    constructor (markdown: string, canvas: Canvas, options: Options)
      ensures useBreaks == OrBool(options.useBreaks, true) && baseSize == OrNumber(options.baseSize, 14)
      ensures curFont == OrString(options.font, "serif") && curText == markdown
      ensures scale == OrNumber(options.scale, 1) && this.canvas == canvas
      ensures Environment() == StartEnv(options, canvas.width, canvas.measure)
      ensures Snap() == Start(options, canvas.font, canvas.lineWidth, canvas.ops)
    {
      useBreaks := OrBool(options.useBreaks, true);
      baseSize := OrNumber(options.baseSize, 14);
      curFont := OrString(options.font, "serif");
      curSize := OrNumber(options.baseSize, 14);
      curWeight := Normal;
      curItalic := false;
      curX := 0;
      curY := 0;
      curText := markdown;
      scale := OrNumber(options.scale, 1);
      this.canvas := canvas;
      new;
      curY := curSize * scale;
    }

    function Environment(): Env
    {
      Env(useBreaks, baseSize, scale, canvas.width, canvas.measure)
    }

    ghost function Snap(): Snapshot
      reads this, canvas
    {
      Snapshot(curSize, curWeight, curItalic, curX, curY, canvas.font, canvas.lineWidth, canvas.ops)
    }

    /** `renderInstruction(this, t)`. */
    method RenderInstruction(t: Token)
      modifies this, canvas
      ensures Snap() == Render(Environment(), old(Snap()), t)
      decreases t
    {
      if |t.children| > 0 {
        var i := 0;
        while i < |t.children|
          invariant 0 <= i <= |t.children|
          invariant RenderAll(Environment(), Snap(), t.children[i..]) == RenderAll(Environment(), old(Snap()), t.children)
        {
          assert t.children[i..][1..] == t.children[i + 1..];
          RenderInstruction(t.children[i]);
          i := i + 1;
        }
        return;
      }

      var lineHeight := (curSize + 2) * scale;

      if t.kind == "heading_open" {
        curX := 0;
        curSize := baseSize;
        curWeight := Bold;
        curSize := HeadingSize(baseSize, t.tag);
        curY := curY + lineHeight;
      } else if t.kind == "heading_close" {
        curY := curY + lineHeight;
        curX := 0;
        curSize := baseSize;
        curWeight := Normal;
      } else if t.kind == "paragraph_close" {
        curY := curY + lineHeight * 2;
        curX := 0;
      } else if t.kind == "hr" {
        canvas.SetLineWidth(scale);
        canvas.StrokeLine(0, curY - scale * 12, canvas.width, curY - scale * 12);
        curY := curY + scale * 12;
        curX := 0;
      } else if t.kind == "softbreak" {
        if useBreaks {
          curY := curY + lineHeight;
          curX := 0;
        }
      } else if t.kind == "hardbreak" {
        curY := curY + lineHeight;
        curX := 0;
      } else if t.kind == "strong_open" {
        curWeight := Bold;
      } else if t.kind == "strong_close" {
        curWeight := Normal;
      } else if t.kind == "em_open" {
        curItalic := true;
      } else if t.kind == "em_close" {
        curItalic := false;
      } else {
        canvas.SetFont(Font(curItalic, curWeight, curSize * scale));
        if |Trim(t.content)| > 0 {
          PlaceWords(Split(t.content), lineHeight);
        }
      }
    }

    /** The word loop of text placement: every word but the last gets its
        trailing space back, is measured, moves to the next line when it
        would cross the canvas width, and is drawn at the cursor. */
    method PlaceWords(words: seq<string>, lineHeight: int)
      modifies this, canvas
      ensures Snap() == LayWords(Environment(), old(Snap()), Pieces(words), lineHeight)
    {
      ghost var pieces := Pieces(words);
      var i := 0;
      while i < |words|
        invariant 0 <= i <= |words|
        invariant LayWords(Environment(), Snap(), pieces[i..], lineHeight) == LayWords(Environment(), old(Snap()), pieces, lineHeight)
      {
        var word := words[i];
        if i < |words| - 1 {
          word := word + " ";
        }
        assert word == pieces[i];
        LayWordsStep(Environment(), Snap(), pieces, i, lineHeight);
        ghost var before := Snap();
        ghost var after := LayWord(Environment(), before, word, lineHeight);
        var w := canvas.MeasureText(word);
        if curX + w > canvas.width {
          curX := 0;
          curY := curY + lineHeight;
        }
        canvas.FillText(word, curX, curY);
        curX := curX + w;
        assert curX == after.curX && curY == after.curY && canvas.ops == after.ops;
        i := i + 1;
      }
    }
  }

  /** `markdownToCanvas(markdown, canvas, options)`; `parse` stands for the
      markdown-it parser. */
  method MarkdownToCanvas(markdown: string, parse: string -> seq<Token>, canvas: Canvas, options: Options)
    modifies canvas
    ensures var r := Document(options, canvas.width, canvas.height, canvas.measure,
                              old(canvas.font), old(canvas.lineWidth), old(canvas.ops), parse(markdown));
            canvas.font == r.font && canvas.lineWidth == r.lineWidth && canvas.ops == r.ops
  {
    var order := new RenderState(markdown, canvas, options);
    canvas.ClearRect(0, 0, canvas.width, canvas.height);
    var instructions := parse(markdown);
    ghost var env := order.Environment();
    ghost var start := order.Snap();
    var i := 0;
    while i < |instructions|
      invariant 0 <= i <= |instructions|
      invariant order.canvas == canvas && order.Environment() == env
      invariant RenderAll(env, order.Snap(), instructions[i..]) == RenderAll(env, start, instructions)
    {
      assert instructions[i..][1..] == instructions[i + 1..];
      order.RenderInstruction(instructions[i]);
      i := i + 1;
    }
  }
}
