/** String helpers with the meaning JavaScript gives them: `split(" ")`,
    `join(" ")`, `trim()` and concatenation of a list of strings. */
module Strings {

  /** Concatenation of a sequence of sequences, in order. */
  function Flatten<T>(ss: seq<seq<T>>): seq<T>
  {
    if |ss| == 0 then [] else ss[0] + Flatten(ss[1..])
  }

  lemma {:induction false} FlattenAppend<T>(a: seq<seq<T>>, b: seq<seq<T>>)
    ensures Flatten(a + b) == Flatten(a) + Flatten(b)
  {
    if |a| == 0 {
      assert a + b == b;
    } else {
      assert (a + b)[1..] == a[1..] + b;
      FlattenAppend(a[1..], b);
    }
  }

  /** `String.prototype.split(" ")`: the maximal runs between single spaces.
      The result is never empty and its elements hold no space. */
  function Split(s: string): (r: seq<string>)
    ensures |r| >= 1
    ensures forall w :: w in r ==> ' ' !in w
  {
    if |s| == 0 then [""]
    else
      var rest := Split(s[1..]);
      if s[0] == ' ' then [""] + rest
      else [[s[0]] + rest[0]] + rest[1..]
  }

  /** `Array.prototype.join(" ")`. */
  function Join(ws: seq<string>): string
  {
    if |ws| == 0 then ""
    else if |ws| == 1 then ws[0]
    else ws[0] + " " + Join(ws[1..])
  }

  /** Rejoining the pieces of a split gives back the string. */
  lemma {:induction false} JoinSplit(s: string)
    ensures Join(Split(s)) == s
  {
    if |s| > 0 {
      var rest := Split(s[1..]);
      JoinSplit(s[1..]);
      if s[0] == ' ' {
        assert ([""] + rest)[1..] == rest;
      } else {
        var r := [[s[0]] + rest[0]] + rest[1..];
        assert r[1..] == rest[1..];
        if |rest| > 1 {
          assert Join(rest) == rest[0] + " " + Join(rest[1..]);
        }
      }
    }
  }

  /** Splitting a word that holds no space gives that word alone. */
  lemma {:induction false} SplitWord(a: string)
    requires ' ' !in a
    ensures Split(a) == [a]
  {
    if |a| > 0 {
      assert ' ' !in a[1..] by {
        forall k | 0 <= k < |a[1..]| ensures a[1..][k] != ' ' { assert a[1..][k] == a[k + 1]; }
      }
      SplitWord(a[1..]);
      assert [a[0]] + a[1..] == a;
    }
  }

  /** A space after a space-free word ends that word and nothing else. */
  lemma {:induction false} SplitAfterWord(a: string, b: string)
    requires ' ' !in a
    ensures Split(a + " " + b) == [a] + Split(b)
  {
    if |a| == 0 {
      assert a + " " + b == [' '] + b;
      assert (a + " " + b)[1..] == b;
    } else {
      assert ' ' !in a[1..] by {
        forall k | 0 <= k < |a[1..]| ensures a[1..][k] != ' ' { assert a[1..][k] == a[k + 1]; }
      }
      assert (a + " " + b)[1..] == a[1..] + " " + b;
      SplitAfterWord(a[1..], b);
      assert [a[0]] + a[1..] == a;
    }
  }

  /** Join is the inverse of Split on lists of space-free words. */
  lemma {:induction false} SplitJoin(ws: seq<string>)
    requires |ws| >= 1
    requires forall i :: 0 <= i < |ws| ==> ' ' !in ws[i]
    ensures Split(Join(ws)) == ws
  {
    if |ws| == 1 {
      SplitWord(ws[0]);
    } else {
      SplitJoin(ws[1..]);
      SplitAfterWord(ws[0], Join(ws[1..]));
      assert [ws[0]] + ws[1..] == ws;
    }
  }

  /** The pieces the text placement draws: every word but the last gets
      its trailing space back. */
  function Pieces(ws: seq<string>): seq<string>
  {
    seq(|ws|, i requires 0 <= i < |ws| => if i < |ws| - 1 then ws[i] + " " else ws[i])
  }

  /** Concatenating the pieces gives the words joined by single spaces. */
  lemma {:induction false} FlattenPieces(ws: seq<string>)
    requires |ws| >= 1
    ensures Flatten(Pieces(ws)) == Join(ws)
  {
    if |ws| > 1 {
      assert Pieces(ws)[1..] == Pieces(ws[1..]);
      FlattenPieces(ws[1..]);
    }
  }

  /** Every word in order, each followed by one space. */
  function Spaced(ws: seq<string>): string
  {
    if |ws| == 0 then "" else ws[0] + " " + Spaced(ws[1..])
  }

  lemma {:induction false} SpacedAppend(a: seq<string>, b: seq<string>)
    ensures Spaced(a + b) == Spaced(a) + Spaced(b)
  {
    if |a| == 0 {
      assert a + b == b;
    } else {
      assert (a + b)[1..] == a[1..] + b;
      SpacedAppend(a[1..], b);
    }
  }

  lemma {:induction false} SpacedJoin(ws: seq<string>)
    requires |ws| >= 1
    ensures Spaced(ws) == Join(ws) + " "
  {
    if |ws| > 1 {
      SpacedJoin(ws[1..]);
    }
  }

  /** The characters `String.prototype.trim` removes: ECMAScript WhiteSpace
      (tab, vertical tab, form feed, space, no-break space, byte order mark
      and the space separators) and LineTerminator. */
  predicate IsTrimmed(c: char)
  {
    c == '\t' || c == '\n' || c == '\U{B}' || c == '\U{C}' || c == '\r' || c == ' '
    || c == '\U{A0}' || c == '\U{1680}' || ('\U{2000}' <= c <= '\U{200A}')
    || c == '\U{2028}' || c == '\U{2029}' || c == '\U{202F}' || c == '\U{205F}'
    || c == '\U{3000}' || c == '\U{FEFF}'
  }

  function TrimStart(s: string): string
  {
    if |s| > 0 && IsTrimmed(s[0]) then TrimStart(s[1..]) else s
  }

  function TrimEnd(s: string): string
  {
    if |s| > 0 && IsTrimmed(s[|s| - 1]) then TrimEnd(s[..|s| - 1]) else s
  }

  /** `String.prototype.trim`. */
  function Trim(s: string): string
  {
    TrimEnd(TrimStart(s))
  }

  /** Every character of `s` is white space (true of the empty string). */
  ghost predicate Blank(s: string)
  {
    forall i :: 0 <= i < |s| ==> IsTrimmed(s[i])
  }

  /** Trimming the start leaves nothing exactly when `s` is blank. */
  lemma {:induction false} TrimStartEmpty(s: string)
    ensures |TrimStart(s)| == 0 <==> Blank(s)
  {
    if |s| > 0 && IsTrimmed(s[0]) {
      TrimStartEmpty(s[1..]);
      if Blank(s[1..]) {
        forall i | 0 <= i < |s| ensures IsTrimmed(s[i]) {
          if i > 0 { assert s[i] == s[1..][i - 1]; }
        }
      }
      if Blank(s) {
        forall i | 0 <= i < |s[1..]| ensures IsTrimmed(s[1..][i]) { assert s[1..][i] == s[i + 1]; }
      }
    }
  }

  /** Trimming the end leaves nothing exactly when `s` is blank. */
  lemma {:induction false} TrimEndEmpty(s: string)
    ensures |TrimEnd(s)| == 0 <==> Blank(s)
  {
    if |s| > 0 && IsTrimmed(s[|s| - 1]) {
      var p := s[..|s| - 1];
      TrimEndEmpty(p);
      if Blank(p) {
        forall i | 0 <= i < |s| ensures IsTrimmed(s[i]) {
          if i < |s| - 1 { assert s[i] == p[i]; }
        }
      }
      if Blank(s) {
        forall i | 0 <= i < |p| ensures IsTrimmed(p[i]) { assert p[i] == s[i]; }
      }
    }
  }

  /** Trimming the start keeps a string blank or non-blank. */
  lemma {:induction false} TrimStartKeepsBlank(s: string)
    ensures Blank(TrimStart(s)) <==> Blank(s)
  {
    if |s| > 0 && IsTrimmed(s[0]) {
      TrimStartKeepsBlank(s[1..]);
      if Blank(s[1..]) {
        forall i | 0 <= i < |s| ensures IsTrimmed(s[i]) {
          if i > 0 { assert s[i] == s[1..][i - 1]; }
        }
      }
      if Blank(s) {
        forall i | 0 <= i < |s[1..]| ensures IsTrimmed(s[1..][i]) { assert s[1..][i] == s[i + 1]; }
      }
    }
  }

  /** `trim()` leaves nothing exactly when every character is white space. */
  lemma TrimEmptyIffBlank(s: string)
    ensures |Trim(s)| == 0 <==> Blank(s)
  {
    TrimEndEmpty(TrimStart(s));
    TrimStartEmpty(s);
    TrimStartKeepsBlank(s);
  }
}
