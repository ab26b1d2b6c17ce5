/** `wrapText`: greedy splitting of a string into lines no wider than a
    limit, measured by the context's current font. */
module WordWrap {
  import opened Strings

  /** The words each line holds, as the loop builds them: a word joins the
      current line when the line with it still measures at most `maxWidth`,
      and starts a new line otherwise. The first word always joins. */
  function Groups(width: string -> nat, maxWidth: int, words: seq<string>): (gs: seq<seq<string>>)
    ensures |gs| <= |words|
    ensures |words| > 0 ==> |gs| > 0
  {
    if |words| <= 1 then (if |words| == 0 then [] else [[words[0]]])
    else
      var gs := Groups(width, maxWidth, words[..|words| - 1]);
      var w := words[|words| - 1];
      var last := gs[|gs| - 1];
      if width(Spaced(last) + (w + " ")) > maxWidth then gs + [[w]]
      else gs[..|gs| - 1] + [last + [w]]
  }

  /** The line strings for a grouping: each word followed by one space. */
  function Lines(gs: seq<seq<string>>): seq<string>
  {
    seq(|gs|, i requires 0 <= i < |gs| => Spaced(gs[i]))
  }

  /** An independent description of a greedy wrapping of `words` into `gs`:
      the groups hold the words in order and none is empty; every word after
      the first of a line passed the fit test when it was added; and every
      line break is there because the next word would have overflowed. */
  ghost predicate IsGreedyWrap(width: string -> nat, maxWidth: int, words: seq<string>, gs: seq<seq<string>>)
  {
    Flatten(gs) == words
    && (forall i :: 0 <= i < |gs| ==> |gs[i]| > 0)
    && (forall i, k :: 0 <= i < |gs| && 1 <= k < |gs[i]| ==> PrefixFits(width, maxWidth, gs[i], k))
    && (forall i :: 0 <= i < |gs| - 1 ==> BreakForced(width, maxWidth, gs, i))
  }

  /** The first `k + 1` words of line `g` measure at most `maxWidth`. */
  ghost predicate PrefixFits(width: string -> nat, maxWidth: int, g: seq<string>, k: int)
  {
    0 <= k < |g| && width(Spaced(g[..k + 1])) <= maxWidth
  }

  /** Line `i` followed by the first word of line `i + 1` is wider than
      `maxWidth`. */
  ghost predicate BreakForced(width: string -> nat, maxWidth: int, gs: seq<seq<string>>, i: int)
  {
    0 <= i < |gs| - 1 && |gs[i + 1]| > 0 && width(Spaced(gs[i]) + (gs[i + 1][0] + " ")) > maxWidth
  }

  /** `wrapText(ctx, text, maxWidth)`, with `width` the context's text
      measurement. */
  method WrapText(width: string -> nat, text: string, maxWidth: int) returns (lines: seq<string>)
    ensures lines == Lines(Groups(width, maxWidth, Split(text)))
    ensures 1 <= |lines| <= |Split(text)|
    ensures Flatten(lines) == text + " "
  {
    var words := Split(text);
    var line := "";
    lines := [];
    var index := 0;
    ghost var gs: seq<seq<string>> := [];
    while index < |words|
      invariant 0 <= index <= |words|
      invariant gs == Groups(width, maxWidth, words[..index])
      invariant index == 0 ==> lines == [] && line == ""
      invariant index > 0 ==> lines + [line] == Lines(gs)
    {
      var w := words[index];
      var newTx := w + " ";
      var testLine := line + newTx;
      var testWidth := width(testLine);
      if testWidth > maxWidth && index > 0 {
        GroupsBreak(width, maxWidth, words, index, lines, line);
        lines := lines + [line];
        line := newTx;
      } else if index > 0 {
        GroupsJoin(width, maxWidth, words, index, lines, line);
        line := testLine;
      } else {
        GroupsFirst(width, maxWidth, words);
        line := testLine;
        assert line == newTx;
        assert lines + [line] == [newTx];
      }
      index := index + 1;
      gs := Groups(width, maxWidth, words[..index]);
    }
    assert words[..index] == words;
    lines := lines + [line];
    WrapCoversText(width, maxWidth, text);
  }

  /** The lines of `text` number between one and one per word, and they
      concatenate to `text` followed by one space. */
  lemma WrapCoversText(width: string -> nat, maxWidth: int, text: string)
    ensures var lines := Lines(Groups(width, maxWidth, Split(text)));
      1 <= |lines| <= |Split(text)| && Flatten(lines) == text + " "
  {
    var words := Split(text);
    LinesFlatten(Groups(width, maxWidth, words));
    WrapIsGreedy(width, maxWidth, words);
    SpacedJoin(words);
    JoinSplit(text);
  }

  /** The loop's first step: the first word makes the first line. */
  lemma GroupsFirst(width: string -> nat, maxWidth: int, words: seq<string>)
    requires |words| > 0
    ensures Lines(Groups(width, maxWidth, words[..1])) == [words[0] + " "]
  {
    assert words[..1] == [words[0]];
    assert Spaced([words[0]]) == words[0] + " ";
  }

  /** A later step of the loop that breaks: the word at `index` makes the
      line it would join wider than `maxWidth`, so it starts a new line. */
  lemma GroupsBreak(width: string -> nat, maxWidth: int, words: seq<string>, index: int,
                    lines: seq<string>, line: string)
    requires 0 < index < |words|
    requires lines + [line] == Lines(Groups(width, maxWidth, words[..index]))
    requires width(line + (words[index] + " ")) > maxWidth
    ensures lines + [line] + [words[index] + " "] == Lines(Groups(width, maxWidth, words[..index + 1]))
  {
    var gs := Groups(width, maxWidth, words[..index]);
    var next := words[..index + 1];
    var w := words[index];
    assert next[..|next| - 1] == words[..index] && next[|next| - 1] == w;
    LastLine(gs, lines, line);
    assert Groups(width, maxWidth, next) == gs + [[w]];
    LinesSnoc(gs, [w]);
    assert Spaced([w]) == w + " ";
  }

  /** A later step of the loop that joins: the word at `index` still fits,
      so it is appended to the current line. */
  lemma GroupsJoin(width: string -> nat, maxWidth: int, words: seq<string>, index: int,
                   lines: seq<string>, line: string)
    requires 0 < index < |words|
    requires lines + [line] == Lines(Groups(width, maxWidth, words[..index]))
    requires width(line + (words[index] + " ")) <= maxWidth
    ensures lines + [line + (words[index] + " ")] == Lines(Groups(width, maxWidth, words[..index + 1]))
  {
    var gs := Groups(width, maxWidth, words[..index]);
    var next := words[..index + 1];
    var w := words[index];
    assert next[..|next| - 1] == words[..index] && next[|next| - 1] == w;
    LastLine(gs, lines, line);
    assert Groups(width, maxWidth, next) == gs[..|gs| - 1] + [gs[|gs| - 1] + [w]];
    SpacedAppend(gs[|gs| - 1], [w]);
    assert Spaced([w]) == w + " ";
    LinesSnoc(gs[..|gs| - 1], gs[|gs| - 1] + [w]);
  }

  /** The lines of a grouping split into those of all groups but the last
      and the last group's line. */
  lemma LastLine(gs: seq<seq<string>>, lines: seq<string>, line: string)
    requires |gs| > 0 && lines + [line] == Lines(gs)
    ensures lines == Lines(gs[..|gs| - 1]) && line == Spaced(gs[|gs| - 1])
  {
    LinesSnoc(gs[..|gs| - 1], gs[|gs| - 1]);
    assert gs[..|gs| - 1] + [gs[|gs| - 1]] == gs;
    SnocInjective(lines, line, Lines(gs[..|gs| - 1]), Spaced(gs[|gs| - 1]));
  }

  lemma SnocInjective<T>(a: seq<T>, x: T, b: seq<T>, y: T)
    requires a + [x] == b + [y]
    ensures a == b && x == y
  {
    assert a == (a + [x])[..|a|];
    assert b == (b + [y])[..|b|];
  }

  lemma LinesSnoc(gs: seq<seq<string>>, g: seq<string>)
    ensures Lines(gs + [g]) == Lines(gs) + [Spaced(g)]
  {
  }

  /** The lines concatenate to the grouped words, each followed by a space. */
  lemma {:induction false} LinesFlatten(gs: seq<seq<string>>)
    ensures Flatten(Lines(gs)) == Spaced(Flatten(gs))
  {
    if |gs| > 0 {
      assert Lines(gs)[1..] == Lines(gs[1..]);
      LinesFlatten(gs[1..]);
      SpacedAppend(gs[0], Flatten(gs[1..]));
    }
  }

  lemma {:induction false} FlattenSnoc<T>(gs: seq<seq<T>>)
    requires |gs| > 0
    ensures Flatten(gs) == Flatten(gs[..|gs| - 1]) + gs[|gs| - 1]
  {
    FlattenAppend(gs[..|gs| - 1], [gs[|gs| - 1]]);
    assert gs[..|gs| - 1] + [gs[|gs| - 1]] == gs;
  }

  /** The loop's grouping is a greedy wrapping. */
  lemma {:induction false} WrapIsGreedy(width: string -> nat, maxWidth: int, words: seq<string>)
    ensures IsGreedyWrap(width, maxWidth, words, Groups(width, maxWidth, words))
  {
    var gs' := Groups(width, maxWidth, words);
    if |words| == 1 {
      assert Flatten(gs') == words;
    } else if |words| > 1 {
      var ws := words[..|words| - 1];
      var w := words[|words| - 1];
      assert ws + [w] == words;
      WrapIsGreedy(width, maxWidth, ws);
      var gs := Groups(width, maxWidth, ws);
      var last := gs[|gs| - 1];
      if width(Spaced(last) + (w + " ")) > maxWidth {
        GreedyBreak(width, maxWidth, ws, w, gs);
      } else {
        GreedyJoin(width, maxWidth, ws, w, gs);
      }
    }
  }

  /** A greedy wrapping stays greedy when the next word, which overflows
      the last line, starts a line of its own. */
  lemma GreedyBreak(width: string -> nat, maxWidth: int, ws: seq<string>, w: string, gs: seq<seq<string>>)
    requires IsGreedyWrap(width, maxWidth, ws, gs) && |gs| > 0
    requires width(Spaced(gs[|gs| - 1]) + (w + " ")) > maxWidth
    ensures IsGreedyWrap(width, maxWidth, ws + [w], gs + [[w]])
  {
    var gs' := gs + [[w]];
    FlattenAppend(gs, [[w]]);
    forall i, k | 0 <= i < |gs'| && 1 <= k < |gs'[i]|
      ensures PrefixFits(width, maxWidth, gs'[i], k)
    {
      assert gs'[i] == gs[i];
    }
    forall i | 0 <= i < |gs'| - 1
      ensures BreakForced(width, maxWidth, gs', i)
    {
      if i < |gs| - 1 {
        assert BreakForced(width, maxWidth, gs, i);
        assert gs'[i] == gs[i] && gs'[i + 1] == gs[i + 1];
      }
    }
  }

  /** A greedy wrapping stays greedy when the next word, which fits, joins
      the last line. */
  lemma GreedyJoin(width: string -> nat, maxWidth: int, ws: seq<string>, w: string, gs: seq<seq<string>>)
    requires IsGreedyWrap(width, maxWidth, ws, gs) && |gs| > 0
    requires width(Spaced(gs[|gs| - 1]) + (w + " ")) <= maxWidth
    ensures IsGreedyWrap(width, maxWidth, ws + [w], gs[..|gs| - 1] + [gs[|gs| - 1] + [w]])
  {
    var n := |gs|;
    var last := gs[n - 1];
    var gs' := gs[..n - 1] + [last + [w]];
    FlattenSnoc(gs);
    FlattenSnoc(gs');
    assert gs'[..|gs'| - 1] == gs[..n - 1];
    forall i, k | 0 <= i < |gs'| && 1 <= k < |gs'[i]|
      ensures PrefixFits(width, maxWidth, gs'[i], k)
    {
      if i == n - 1 {
        if k < |last| {
          assert PrefixFits(width, maxWidth, last, k);
          assert gs'[i][..k + 1] == last[..k + 1];
        } else {
          assert gs'[i][..k + 1] == last + [w];
          SpacedAppend(last, [w]);
          assert Spaced([w]) == w + " ";
        }
      } else {
        assert gs'[i] == gs[i];
      }
    }
    forall i | 0 <= i < |gs'| - 1
      ensures BreakForced(width, maxWidth, gs', i)
    {
      assert BreakForced(width, maxWidth, gs, i);
      assert gs'[i] == gs[i];
      assert gs'[i + 1][0] == gs[i + 1][0];
    }
  }

  lemma {:induction false} FlattenLength<T>(gs: seq<seq<T>>)
    requires forall i :: 0 <= i < |gs| ==> |gs[i]| > 0
    ensures |gs| <= |Flatten(gs)|
  {
    if |gs| > 0 {
      FlattenLength(gs[1..]);
    }
  }

  /** Any greedy wrapping is the loop's grouping: the greedy description
      determines the lines. */
  lemma {:induction false} GreedyIsWrap(width: string -> nat, maxWidth: int, words: seq<string>, gs: seq<seq<string>>)
    requires IsGreedyWrap(width, maxWidth, words, gs)
    ensures gs == Groups(width, maxWidth, words)
    decreases |words|, 1
  {
    FlattenLength(gs);
    if |words| == 1 {
      assert |gs| == 1;
      assert Flatten(gs) == gs[0] + Flatten(gs[1..]);
      assert gs[0] == words == [words[0]];
    } else if |words| > 1 {
      if |gs[|gs| - 1]| == 1 {
        GreedyIsWrapBreak(width, maxWidth, words, gs);
      } else {
        GreedyIsWrapJoin(width, maxWidth, words, gs);
      }
    }
  }

  /** The last group of a grouping that holds `words` ends with the last
      word, and the rest of the groups hold the words before it. */
  lemma LastGroup(words: seq<string>, gs: seq<seq<string>>)
    requires Flatten(gs) == words && |gs| > 0 && |gs[|gs| - 1]| > 0
    ensures |words| > 0
    ensures gs[|gs| - 1][|gs[|gs| - 1]| - 1] == words[|words| - 1]
    ensures Flatten(gs[..|gs| - 1]) + gs[|gs| - 1][..|gs[|gs| - 1]| - 1] == words[..|words| - 1]
  {
    FlattenSnoc(gs);
    var a := Flatten(gs[..|gs| - 1]);
    var last := gs[|gs| - 1];
    assert words == a + last;
    assert words[|words| - 1] == last[|last| - 1];
    assert (a + last)[..|words| - 1] == a + last[..|last| - 1];
  }

  /** Uniqueness when the last word stands alone on the last line. */
  lemma {:induction false} GreedyIsWrapBreak(width: string -> nat, maxWidth: int, words: seq<string>, gs: seq<seq<string>>)
    requires IsGreedyWrap(width, maxWidth, words, gs)
    requires |words| > 1 && |gs| > 0 && |gs[|gs| - 1]| == 1
    ensures gs == Groups(width, maxWidth, words)
    decreases |words|, 0
  {
    var ws := words[..|words| - 1];
    var w := words[|words| - 1];
    var n := |gs|;
    var front := gs[..n - 1];
    LastGroup(words, gs);
    assert gs[n - 1] == [w];
    assert Flatten(front) == ws;
    FlattenLength(front);
    DropLastGroup(width, maxWidth, words, gs);
    GreedyIsWrap(width, maxWidth, ws, front);
    assert BreakForced(width, maxWidth, gs, n - 2);
    assert gs == front + [[w]];
  }

  /** Uniqueness when the last word shares the last line. */
  lemma {:induction false} GreedyIsWrapJoin(width: string -> nat, maxWidth: int, words: seq<string>, gs: seq<seq<string>>)
    requires IsGreedyWrap(width, maxWidth, words, gs)
    requires |words| > 1 && |gs| > 0 && |gs[|gs| - 1]| > 1
    ensures gs == Groups(width, maxWidth, words)
    decreases |words|, 0
  {
    var ws := words[..|words| - 1];
    var w := words[|words| - 1];
    var n := |gs|;
    var front := gs[..n - 1];
    var last := gs[n - 1];
    LastGroup(words, gs);
    var short := last[..|last| - 1];
    var gp := front + [short];
    assert last == short + [w];
    FlattenSnoc(gp);
    assert gp[..|gp| - 1] == front;
    DropLastWord(width, maxWidth, words, gs);
    GreedyIsWrap(width, maxWidth, ws, gp);
    assert PrefixFits(width, maxWidth, last, |last| - 1);
    assert last[..|last|] == last;
    SpacedAppend(short, [w]);
    assert Spaced([w]) == w + " ";
    assert gp[..|gp| - 1] + [gp[|gp| - 1] + [w]] == gs;
  }

  /** Dropping a last line that holds one word leaves a greedy wrapping
      of the words before it. */
  lemma DropLastGroup(width: string -> nat, maxWidth: int, words: seq<string>, gs: seq<seq<string>>)
    requires IsGreedyWrap(width, maxWidth, words, gs)
    requires |gs| > 0 && |gs[|gs| - 1]| == 1
    ensures |words| > 0
    ensures IsGreedyWrap(width, maxWidth, words[..|words| - 1], gs[..|gs| - 1])
  {
    var front := gs[..|gs| - 1];
    LastGroup(words, gs);
    forall i, k | 0 <= i < |front| && 1 <= k < |front[i]|
      ensures PrefixFits(width, maxWidth, front[i], k)
    {
      assert front[i] == gs[i];
    }
    forall i | 0 <= i < |front| - 1
      ensures BreakForced(width, maxWidth, front, i)
    {
      assert BreakForced(width, maxWidth, gs, i);
      assert front[i] == gs[i] && front[i + 1] == gs[i + 1];
    }
  }

  /** Dropping the last word of a last line that holds two or more words
      leaves a greedy wrapping of the words before it. */
  lemma DropLastWord(width: string -> nat, maxWidth: int, words: seq<string>, gs: seq<seq<string>>)
    requires IsGreedyWrap(width, maxWidth, words, gs)
    requires |gs| > 0 && |gs[|gs| - 1]| > 1
    ensures |words| > 0
    ensures IsGreedyWrap(width, maxWidth, words[..|words| - 1],
                         gs[..|gs| - 1] + [gs[|gs| - 1][..|gs[|gs| - 1]| - 1]])
  {
    var n := |gs|;
    var last := gs[n - 1];
    var short := last[..|last| - 1];
    var gp := gs[..n - 1] + [short];
    DropLastWordFlatten(words, gs);
    forall i | 0 <= i < |gp|
      ensures |gp[i]| > 0
    {
      if i < n - 1 {
        assert gp[i] == gs[i];
      }
    }
    DropLastWordFits(width, maxWidth, gs, gp);
    DropLastWordBreaks(width, maxWidth, gs, gp);
  }

  /** Dropping the last word of the last group drops the last word of the
      words the groups hold. */
  lemma DropLastWordFlatten(words: seq<string>, gs: seq<seq<string>>)
    requires Flatten(gs) == words && |gs| > 0 && |gs[|gs| - 1]| > 1
    ensures |words| > 0
    ensures Flatten(gs[..|gs| - 1] + [gs[|gs| - 1][..|gs[|gs| - 1]| - 1]]) == words[..|words| - 1]
  {
    var n := |gs|;
    var last := gs[n - 1];
    var gp := gs[..n - 1] + [last[..|last| - 1]];
    LastGroup(words, gs);
    FlattenSnoc(gp);
    assert gp[..|gp| - 1] == gs[..n - 1];
  }

  /** The fit tests of a wrapping still hold once the last word is
      dropped. */
  lemma DropLastWordFits(width: string -> nat, maxWidth: int, gs: seq<seq<string>>, gp: seq<seq<string>>)
    requires |gs| > 0 && |gs[|gs| - 1]| > 1
    requires gp == gs[..|gs| - 1] + [gs[|gs| - 1][..|gs[|gs| - 1]| - 1]]
    requires forall i, k :: 0 <= i < |gs| && 1 <= k < |gs[i]| ==> PrefixFits(width, maxWidth, gs[i], k)
    ensures forall i, k :: 0 <= i < |gp| && 1 <= k < |gp[i]| ==> PrefixFits(width, maxWidth, gp[i], k)
  {
    var n := |gs|;
    var last := gs[n - 1];
    forall i, k | 0 <= i < |gp| && 1 <= k < |gp[i]|
      ensures PrefixFits(width, maxWidth, gp[i], k)
    {
      if i == n - 1 {
        assert gp[i] == last[..|last| - 1];
        assert PrefixFits(width, maxWidth, last, k);
        assert gp[i][..k + 1] == last[..k + 1];
      } else {
        assert gp[i] == gs[i];
        assert PrefixFits(width, maxWidth, gs[i], k);
      }
    }
  }

  /** The forced breaks of a wrapping are still forced once the last word
      is dropped. */
  lemma DropLastWordBreaks(width: string -> nat, maxWidth: int, gs: seq<seq<string>>, gp: seq<seq<string>>)
    requires |gs| > 0 && |gs[|gs| - 1]| > 1
    requires gp == gs[..|gs| - 1] + [gs[|gs| - 1][..|gs[|gs| - 1]| - 1]]
    requires forall i :: 0 <= i < |gs| - 1 ==> BreakForced(width, maxWidth, gs, i)
    ensures forall i :: 0 <= i < |gp| - 1 ==> BreakForced(width, maxWidth, gp, i)
  {
    var n := |gs|;
    var last := gs[n - 1];
    forall i | 0 <= i < |gp| - 1
      ensures BreakForced(width, maxWidth, gp, i)
    {
      assert BreakForced(width, maxWidth, gs, i);
      assert gp[i] == gs[i];
      if i + 1 == n - 1 {
        assert gp[i + 1] == last[..|last| - 1];
        assert gp[i + 1][0] == last[0];
      } else {
        assert gp[i + 1] == gs[i + 1];
      }
    }
  }

  /** Only a line holding a single word may be wider than `maxWidth`. */
  lemma LongLinesFit(width: string -> nat, maxWidth: int, words: seq<string>, i: int)
    requires 0 <= i < |Groups(width, maxWidth, words)|
    requires |Groups(width, maxWidth, words)[i]| >= 2
    ensures width(Lines(Groups(width, maxWidth, words))[i]) <= maxWidth
  {
    var gs := Groups(width, maxWidth, words);
    WrapIsGreedy(width, maxWidth, words);
    assert PrefixFits(width, maxWidth, gs[i], |gs[i]| - 1);
    assert gs[i][..|gs[i]|] == gs[i];
  }

  /** The first line starts with the first word: there is never a break
      before it. */
  lemma FirstWordStaysFirst(width: string -> nat, maxWidth: int, words: seq<string>)
    requires |words| > 0
    ensures |Groups(width, maxWidth, words)[0]| > 0
    ensures Groups(width, maxWidth, words)[0][0] == words[0]
  {
    var gs := Groups(width, maxWidth, words);
    WrapIsGreedy(width, maxWidth, words);
    assert Flatten(gs) == gs[0] + Flatten(gs[1..]);
  }
}
