/** What the layout walk guarantees: the heading-size table, the vertical
    advances, the word-wrap rule, the text it draws and the order it keeps. */
module LayoutProperties {
  import opened Strings
  import opened Surface
  import opened Layout

  // ----- Heading sizes -----

  /** h1 to h5 select `round(baseSize * 2.5 / 2.0 / 1.5 / 1.25 / 1.0)`;
      every other tag, the empty one included, selects `baseSize`. */
  lemma HeadingSizeTable(baseSize: int, tag: string)
    ensures tag == "h1" ==> IsRounded(HeadingSize(baseSize, tag), 5 * baseSize, 2)
    ensures tag == "h2" ==> HeadingSize(baseSize, tag) == 2 * baseSize
    ensures tag == "h3" ==> IsRounded(HeadingSize(baseSize, tag), 3 * baseSize, 2)
    ensures tag == "h4" ==> IsRounded(HeadingSize(baseSize, tag), 5 * baseSize, 4)
    ensures tag == "h5" ==> HeadingSize(baseSize, tag) == baseSize
    ensures tag !in {"h1", "h2", "h3", "h4", "h5"} ==> HeadingSize(baseSize, tag) == baseSize
    ensures baseSize >= 0 ==> HeadingSize(baseSize, tag) >= 0
  {
  }

  /** With the default base size 14 the headings are 35, 28, 21, 18 and 14. */
  lemma DefaultHeadingSizes()
    ensures HeadingSize(14, "h1") == 35 && HeadingSize(14, "h2") == 28 && HeadingSize(14, "h3") == 21
    ensures HeadingSize(14, "h4") == 18 && HeadingSize(14, "h5") == 14 && HeadingSize(14, "h6") == 14
  {
  }

  // ----- One token -----

  /** A token with children draws nothing itself: its type, tag and content
      are ignored and its children are rendered in order. */
  lemma ChildrenReplaceParent(env: Env, s: Snapshot, t: Token, kind: string, tag: string, content: string)
    requires |t.children| > 0
    ensures Render(env, s, t) == RenderAll(env, s, t.children)
    ensures Render(env, s, t) == Render(env, s, Token(kind, tag, content, t.children))
  {
  }

  /** `heading_open` starts a bold heading line one line height further
      down, at the heading's size; `heading_close` goes down one more line
      height and restores `baseSize` and the normal weight. The line height
      is `(curSize + 2) * scale` with the size in force before the token. */
  lemma HeadingEffects(env: Env, s: Snapshot, t: Token)
    requires |t.children| == 0
    ensures t.kind == "heading_open" ==>
      var r := Render(env, s, t);
      r.curX == 0 && r.curWeight == Bold && r.curSize == HeadingSize(env.baseSize, t.tag)
      && r.curY == s.curY + (s.curSize + 2) * env.scale
      && r.curItalic == s.curItalic && r.font == s.font && r.lineWidth == s.lineWidth && r.ops == s.ops
    ensures t.kind == "heading_close" ==>
      var r := Render(env, s, t);
      r.curX == 0 && r.curWeight == Normal && r.curSize == env.baseSize
      && r.curY == s.curY + (s.curSize + 2) * env.scale
      && r.curItalic == s.curItalic && r.font == s.font && r.lineWidth == s.lineWidth && r.ops == s.ops
  {
  }

  /** Block ends, breaks and rules move the cursor to the start of a line
      further down: a paragraph end by two line heights, a hard break (and a
      soft break when `useBreaks` is set) by one, a rule by `12 * scale`,
      after stroking it across the canvas `12 * scale` above the cursor. */
  lemma VerticalAdvances(env: Env, s: Snapshot, t: Token)
    requires |t.children| == 0
    ensures var r := Render(env, s, t);
      var lineHeight := (s.curSize + 2) * env.scale;
      (t.kind == "paragraph_close" ==> r == s.(curX := 0, curY := s.curY + 2 * lineHeight))
      && (t.kind == "hardbreak" || (t.kind == "softbreak" && env.useBreaks) ==> r == s.(curX := 0, curY := s.curY + lineHeight))
      && (t.kind == "softbreak" && !env.useBreaks ==> r == s)
      && (t.kind == "hr" ==>
            r.curX == 0 && r.curY == s.curY + 12 * env.scale
            && r.lineWidth == (if env.scale > 0 then env.scale else s.lineWidth)
            && r.ops == s.ops + [Stroke(0, s.curY - 12 * env.scale, env.canvasWidth, s.curY - 12 * env.scale, r.lineWidth)]
            && r.curSize == s.curSize && r.curWeight == s.curWeight && r.curItalic == s.curItalic && r.font == s.font)
  {
  }

  /** Emphasis tokens change only the weight or only the italic flag. */
  lemma StyleOnlyTokens(env: Env, s: Snapshot, t: Token)
    requires |t.children| == 0
    ensures t.kind == "strong_open" ==> Render(env, s, t) == s.(curWeight := Bold)
    ensures t.kind == "strong_close" ==> Render(env, s, t) == s.(curWeight := Normal)
    ensures t.kind == "em_open" ==> Render(env, s, t) == s.(curItalic := true)
    ensures t.kind == "em_close" ==> Render(env, s, t) == s.(curItalic := false)
  {
  }

  /** A text token whose content is empty or white space only selects the
      font and nothing else: no drawing, no cursor or style change. */
  lemma BlankTextPlacesNothing(env: Env, s: Snapshot, t: Token)
    requires |t.children| == 0 && !IsControl(t.kind) && Blank(t.content)
    ensures s.curSize * env.scale >= 0 ==> Render(env, s, t) == s.(font := FontOf(env, s))
    ensures s.curSize * env.scale < 0 ==> Render(env, s, t) == s
  {
    TrimEmptyIffBlank(t.content);
  }

  /** The wrap rule for one piece: it is drawn at the cursor, unless the
      cursor plus its width would cross the canvas width, in which case it
      is drawn at x = 0 exactly one line height further down. The cursor
      ends just after it. */
  lemma PlaceWordRule(env: Env, s: Snapshot, word: string, lineHeight: int)
    ensures var r := LayWord(env, s, word, lineHeight);
      var w := env.measure(s.font, word);
      var wraps := s.curX + w > env.canvasWidth;
      var x := if wraps then 0 else s.curX;
      var y := if wraps then s.curY + lineHeight else s.curY;
      r.ops == s.ops + [Fill(word, x, y, s.font)] && r.curX == x + w && r.curY == y
      && r.curSize == s.curSize && r.curWeight == s.curWeight && r.curItalic == s.curItalic
      && r.font == s.font && r.lineWidth == s.lineWidth
  {
  }

  // ----- The text that is drawn -----

  /** The text a token contributes: its children's, or its content when it
      reaches text placement and is not blank. */
  function VisibleText(t: Token): string
    decreases t, 1
  {
    if |t.children| > 0 then VisibleTexts(t.children)
    else if IsControl(t.kind) || |Trim(t.content)| == 0 then ""
    else t.content
  }

  function VisibleTexts(ts: seq<Token>): string
    decreases ts, 0
  {
    if |ts| == 0 then "" else VisibleText(ts[0]) + VisibleTexts(ts[1..])
  }

  /** Placing pieces draws exactly their concatenation. */
  lemma {:induction false} LayWordsTexts(env: Env, s: Snapshot, pieces: seq<string>, lineHeight: int)
    ensures Texts(LayWords(env, s, pieces, lineHeight).ops) == Texts(s.ops) + Flatten(pieces)
    decreases |pieces|
  {
    if |pieces| > 0 {
      var s1 := LayWord(env, s, pieces[0], lineHeight);
      SnocTexts(s.ops, Fill(pieces[0], s1.ops[|s1.ops| - 1].x, s1.ops[|s1.ops| - 1].y, s.font));
      LayWordsTexts(env, s1, pieces[1..], lineHeight);
    }
  }

  /** Text placement reproduces the content exactly: every word is drawn,
      in order, and every word but the last with its trailing space. */
  lemma TextRoundTrip(env: Env, s: Snapshot, t: Token)
    requires |t.children| == 0 && !IsControl(t.kind) && !Blank(t.content)
    ensures Texts(Render(env, s, t).ops) == Texts(s.ops) + t.content
  {
    TrimEmptyIffBlank(t.content);
    var s' := s.(font := FontAfter(s.font, FontOf(env, s)));
    var pieces := Pieces(Split(t.content));
    TextPlacesPieces(env, s, t);
    LayWordsTexts(env, s', pieces, (s.curSize + 2) * env.scale);
    assert Texts(Render(env, s, t).ops) == Texts(s.ops) + Flatten(pieces);
    FlattenPieces(Split(t.content));
    JoinSplit(t.content);
  }

  /** A text token with visible content selects the font and places the
      pieces of its content. */
  lemma TextPlacesPieces(env: Env, s: Snapshot, t: Token)
    requires |t.children| == 0 && !IsControl(t.kind) && |Trim(t.content)| > 0
    ensures Render(env, s, t)
            == LayWords(env, s.(font := FontAfter(s.font, FontOf(env, s))), Pieces(Split(t.content)), (s.curSize + 2) * env.scale)
  {
  }

  /** Over any token list, the text drawn is the visible text of the
      tokens, in document order. */
  lemma {:induction false} RenderTexts(env: Env, s: Snapshot, t: Token)
    ensures Texts(Render(env, s, t).ops) == Texts(s.ops) + VisibleText(t)
    decreases t, 1
  {
    if |t.children| > 0 {
      RenderAllTexts(env, s, t.children);
    } else if !IsControl(t.kind) {
      TrimEmptyIffBlank(t.content);
      if !Blank(t.content) {
        TextRoundTrip(env, s, t);
      }
    } else if t.kind == "hr" {
      var y := s.curY - env.scale * 12;
      SnocTexts(s.ops, Stroke(0, y, env.canvasWidth, y, LineWidthAfter(s.lineWidth, env.scale)));
    } else {
      ControlDrawsNothing(env, s, t);
    }
  }

  /** Every control token but `hr` leaves the drawing log as it was. */
  lemma ControlDrawsNothing(env: Env, s: Snapshot, t: Token)
    requires |t.children| == 0 && IsControl(t.kind) && t.kind != "hr"
    ensures Render(env, s, t).ops == s.ops
  {
  }

  lemma {:induction false} RenderAllTexts(env: Env, s: Snapshot, ts: seq<Token>)
    ensures Texts(RenderAll(env, s, ts).ops) == Texts(s.ops) + VisibleTexts(ts)
    decreases ts, 0
  {
    if |ts| > 0 {
      RenderTexts(env, s, ts[0]);
      RenderAllTexts(env, Render(env, s, ts[0]), ts[1..]);
    }
  }

  // ----- The vertical cursor never goes back -----

  /** Non-negative scale and sizes make every line height non-negative. */
  ghost predicate Sane(env: Env, s: Snapshot)
  {
    env.scale >= 0 && env.baseSize >= 0 && s.curSize >= 0
  }

  lemma {:induction false} LayWordsMonotone(env: Env, s: Snapshot, pieces: seq<string>, lineHeight: int)
    requires lineHeight >= 0
    ensures LayWords(env, s, pieces, lineHeight).curY >= s.curY
    ensures LayWords(env, s, pieces, lineHeight).curSize == s.curSize
    decreases |pieces|
  {
    if |pieces| > 0 {
      LayWordsMonotone(env, LayWord(env, s, pieces[0], lineHeight), pieces[1..], lineHeight);
    }
  }

  /** With non-negative scale and sizes no token moves the cursor up. */
  lemma {:induction false} RenderMonotone(env: Env, s: Snapshot, t: Token)
    requires Sane(env, s)
    ensures Sane(env, Render(env, s, t))
    ensures Render(env, s, t).curY >= s.curY
    decreases t, 1
  {
    if |t.children| > 0 {
      RenderAllMonotone(env, s, t.children);
    } else if t.kind == "heading_open" {
      HeadingSizeTable(env.baseSize, t.tag);
    } else if !IsControl(t.kind) {
      assert (s.curSize + 2) * env.scale >= 0;
      LayWordsMonotone(env, s.(font := FontAfter(s.font, FontOf(env, s))), Pieces(Split(t.content)), (s.curSize + 2) * env.scale);
    } else {
      assert (s.curSize + 2) * env.scale >= 0;
    }
  }

  lemma {:induction false} RenderAllMonotone(env: Env, s: Snapshot, ts: seq<Token>)
    requires Sane(env, s)
    ensures Sane(env, RenderAll(env, s, ts))
    ensures RenderAll(env, s, ts).curY >= s.curY
    decreases ts, 0
  {
    if |ts| > 0 {
      RenderMonotone(env, s, ts[0]);
      RenderAllMonotone(env, Render(env, s, ts[0]), ts[1..]);
    }
  }

  // ----- Every word starts a line or fits on it -----

  /** A drawn word either starts at the left edge or ends inside the
      canvas width. */
  ghost predicate PlacedWithin(env: Env, op: DrawOp)
  {
    op.Fill? ==> op.x == 0 || op.x + env.measure(op.font, op.text) <= env.canvasWidth
  }

  /** `ops` extends `before`, and every operation added satisfies the wrap
      rule. */
  ghost predicate GrowsWithin(env: Env, before: seq<DrawOp>, ops: seq<DrawOp>)
  {
    before <= ops && forall i :: |before| <= i < |ops| ==> PlacedWithin(env, ops[i])
  }

  lemma GrowsWithinTrans(env: Env, a: seq<DrawOp>, b: seq<DrawOp>, c: seq<DrawOp>)
    requires GrowsWithin(env, a, b) && GrowsWithin(env, b, c)
    ensures GrowsWithin(env, a, c)
  {
    forall i | |a| <= i < |c| ensures PlacedWithin(env, c[i]) {
      if i < |b| { assert c[i] == b[i]; }
    }
  }

  lemma {:induction false} LayWordsWithin(env: Env, s: Snapshot, pieces: seq<string>, lineHeight: int)
    ensures GrowsWithin(env, s.ops, LayWords(env, s, pieces, lineHeight).ops)
    decreases |pieces|
  {
    if |pieces| > 0 {
      var s1 := LayWord(env, s, pieces[0], lineHeight);
      assert GrowsWithin(env, s.ops, s1.ops) by {
        assert s1.ops[|s.ops|].font == s.font;
      }
      LayWordsWithin(env, s1, pieces[1..], lineHeight);
      GrowsWithinTrans(env, s.ops, s1.ops, LayWords(env, s, pieces, lineHeight).ops);
    }
  }

  /** Rendering only appends to the canvas log, and no word it draws
      crosses the canvas width except one that starts a line. */
  lemma {:induction false} RenderWithin(env: Env, s: Snapshot, t: Token)
    ensures GrowsWithin(env, s.ops, Render(env, s, t).ops)
    decreases t, 1
  {
    if |t.children| > 0 {
      RenderAllWithin(env, s, t.children);
    } else if !IsControl(t.kind) {
      LayWordsWithin(env, s.(font := FontAfter(s.font, FontOf(env, s))), Pieces(Split(t.content)), (s.curSize + 2) * env.scale);
    }
  }

  lemma {:induction false} RenderAllWithin(env: Env, s: Snapshot, ts: seq<Token>)
    ensures GrowsWithin(env, s.ops, RenderAll(env, s, ts).ops)
    decreases ts, 0
  {
    if |ts| > 0 {
      var s1 := Render(env, s, ts[0]);
      RenderWithin(env, s, ts[0]);
      RenderAllWithin(env, s1, ts[1..]);
      GrowsWithinTrans(env, s.ops, s1.ops, RenderAll(env, s, ts).ops);
    }
  }

  // ----- The whole document -----

  /** Soft breaks always break (`useBreaks || true`), absent or zero
      options fall back to size 14 and scale 1, and the cursor starts at
      the left edge one font size (times the scale) down. */
  lemma DocumentStart(options: Options, width: int, measure: Measure, font: Font, lineWidth: int, ops: seq<DrawOp>)
    ensures StartEnv(options, width, measure).useBreaks
    ensures var env := StartEnv(options, width, measure);
      var s := Start(options, font, lineWidth, ops);
      s.curSize == env.baseSize && s.curY == s.curSize * env.scale && s.curX == 0
      && s.curWeight == Normal && !s.curItalic && s.ops == ops
    ensures options.baseSize.None? ==> StartEnv(options, width, measure).baseSize == 14
    ensures options.scale.None? ==> StartEnv(options, width, measure).scale == 1
  {
  }

  /** The or-defaults of the options: an absent option and a falsy one (0,
      `""`) take the default, any other value is kept; `useBreaks` is true
      whatever the caller passes. */
  lemma OptionDefaults(options: Options)
    ensures options.baseSize.None? || options.baseSize == Some(0) ==> OrNumber(options.baseSize, 14) == 14
    ensures options.baseSize.Some? && options.baseSize.value != 0 ==> OrNumber(options.baseSize, 14) == options.baseSize.value
    ensures options.scale.None? || options.scale == Some(0) ==> OrNumber(options.scale, 1) == 1
    ensures options.scale.Some? && options.scale.value != 0 ==> OrNumber(options.scale, 1) == options.scale.value
    ensures options.font.None? || options.font == Some("") ==> OrString(options.font, "serif") == "serif"
    ensures options.font.Some? && options.font.value != "" ==> OrString(options.font, "serif") == options.font.value
    ensures OrBool(options.useBreaks, true)
  {
  }

  /** After clearing the canvas, a document draws exactly its visible text,
      in order, each word starting a line or fitting on it; with a
      non-negative base size and scale the cursor ends no higher than it
      started. */
  lemma DocumentLayout(options: Options, width: int, height: int, measure: Measure,
                       font: Font, lineWidth: int, ops: seq<DrawOp>, tokens: seq<Token>)
    ensures var r := Document(options, width, height, measure, font, lineWidth, ops, tokens);
      Texts(r.ops) == Texts(ops) + VisibleTexts(tokens)
      && GrowsWithin(StartEnv(options, width, measure), ops + [Clear(0, 0, width, height)], r.ops)
    ensures var r := Document(options, width, height, measure, font, lineWidth, ops, tokens);
      var env := StartEnv(options, width, measure);
      env.baseSize >= 0 && env.scale >= 0 ==> r.curY >= env.baseSize * env.scale
  {
    var env := StartEnv(options, width, measure);
    var s := Start(options, font, lineWidth, ops + [Clear(0, 0, width, height)]);
    RenderAllTexts(env, s, tokens);
    SnocTexts(ops, Clear(0, 0, width, height));
    RenderAllWithin(env, s, tokens);
    if env.baseSize >= 0 && env.scale >= 0 {
      RenderAllMonotone(env, s, tokens);
    }
  }
}
