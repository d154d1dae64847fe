/**
 * The text component of ui/text.py: with a maximum width the text is wrapped
 * greedily at spaces, measuring each candidate line with the font; the lines are then
 * drawn stacked, each below the previous one.
 *
 * The font is reduced to two functions: the pixel width of a rendered string and the
 * pixel height of a rendered line. A rendered line is represented by its string.
 */
module UiText {

  import opened Common
  import TextUtil

  /** text.split(" "): the pieces between single spaces, empty pieces included. */
  function Split(s: string): (r: seq<string>)
    ensures |r| >= 1
  {
    if s == [] then [""]
    else if s[0] == ' ' then [""] + Split(s[1..])
    else
      var t := Split(s[1..]);
      [[s[0]] + t[0]] + t[1..]
  }

  /** No piece of the split holds a space. */
  lemma {:induction false} SplitNoSpace(s: string)
    ensures forall k :: 0 <= k < |Split(s)| ==> ' ' !in Split(s)[k]
  {
    if s != [] {
      SplitNoSpace(s[1..]);
      var t := Split(s[1..]);
      if s[0] != ' ' {
        assert ' ' !in [s[0]] + t[0];
      }
    }
  }

  /** " ".join(words) */
  function Join(words: seq<string>): string
    requires |words| >= 1
  {
    if |words| == 1 then words[0] else words[0] + " " + Join(words[1..])
  }

  /** Splitting loses nothing: joining the pieces with spaces gives the text back. */
  lemma {:induction false} JoinSplit(s: string)
    ensures Join(Split(s)) == s
  {
    if s != [] {
      JoinSplit(s[1..]);
      var t := Split(s[1..]);
      if s[0] != ' ' && |t| > 1 {
        assert Join(Split(s)) == [s[0]] + t[0] + " " + Join(t[1..]);
        assert Join(t) == t[0] + " " + Join(t[1..]);
      }
    }
  }

  /** The lines concatenated. */
  function Concat(lines: seq<string>): string {
    if lines == [] then "" else lines[0] + Concat(lines[1..])
  }

  /** Each word followed by a space, concatenated: what the loop appends. */
  function Spaced(words: seq<string>): string {
    if words == [] then "" else words[0] + " " + Spaced(words[1..])
  }

  /**
   * The unstripped lines of the greedy wrap, given the line being built: each word is
   * tried on the current line with a space after it; if that is wider than maxWidth
   * the current line is closed and the word starts the next; at the end a non-empty
   * current line is closed.
   */
  function Wrapped(words: seq<string>, current: string, maxWidth: int, measure: string -> int): seq<string>
    decreases |words|
  {
    if words == [] then (if current != "" then [current] else [])
    else
      var test := current + words[0] + " ";
      if measure(test) > maxWidth then [current] + Wrapped(words[1..], words[0] + " ", maxWidth, measure)
      else Wrapped(words[1..], test, maxWidth, measure)
  }

  /** f applied to each line. */
  function MapLines(f: string -> string, lines: seq<string>): seq<string> {
    if lines == [] then [] else [f(lines[0])] + MapLines(f, lines[1..])
  }

  /** Each line stripped. */
  function StripAll(lines: seq<string>): seq<string> {
    MapLines(TextUtil.Strip, lines)
  }

  /** Wrapping loses and reorders nothing: the lines concatenated are the words, each with its space. */
  lemma {:induction false} WrapKeepsWords(words: seq<string>, current: string, maxWidth: int, measure: string -> int)
    ensures Concat(Wrapped(words, current, maxWidth, measure)) == current + Spaced(words)
    decreases |words|
  {
    if words == [] {
      if current == "" {
        assert Concat([]) == "";
      } else {
        assert Concat([current]) == current + Concat([]);
      }
    } else {
      var test := current + words[0] + " ";
      if measure(test) > maxWidth {
        WrapKeepsWords(words[1..], words[0] + " ", maxWidth, measure);
        var rest := Wrapped(words[1..], words[0] + " ", maxWidth, measure);
        assert Concat([current] + rest) == current + Concat(rest);
      } else {
        WrapKeepsWords(words[1..], test, maxWidth, measure);
      }
    }
  }

  /** The line holds exactly one of the words, with its space. */
  predicate OneWord(line: string, words: seq<string>) {
    exists j :: 0 <= j < |words| && line == words[j] + " "
  }

  lemma OneWordTail(line: string, words: seq<string>)
    requires words != [] && OneWord(line, words[1..])
    ensures OneWord(line, words)
  {
    var j :| 0 <= j < |words[1..]| && line == words[1..][j] + " ";
    assert line == words[j + 1] + " ";
  }

  /** Each line is the initial one, fits, or holds a single word. */
  predicate LinesFit(lines: seq<string>, current: string, words: seq<string>, maxWidth: int, measure: string -> int) {
    forall k :: 0 <= k < |lines| ==>
      lines[k] == current || measure(lines[k]) <= maxWidth || OneWord(lines[k], words)
  }

  /**
   * Every line fits, except the initial line and a line holding one word that is too
   * wide on its own.
   */
  lemma {:induction false} WrapFits(words: seq<string>, current: string, maxWidth: int, measure: string -> int)
    ensures LinesFit(Wrapped(words, current, maxWidth, measure), current, words, maxWidth, measure)
    decreases |words|
  {
    if words != [] {
      var test := current + words[0] + " ";
      var r := Wrapped(words, current, maxWidth, measure);
      if measure(test) > maxWidth {
        var next := words[0] + " ";
        WrapFits(words[1..], next, maxWidth, measure);
        var rest := Wrapped(words[1..], next, maxWidth, measure);
        assert r == [current] + rest;
        forall k | 1 <= k < |r|
          ensures measure(r[k]) <= maxWidth || OneWord(r[k], words)
        {
          assert r[k] == rest[k - 1];
          if r[k] == next {
            assert OneWord(r[k], words) by { assert r[k] == words[0] + " "; }
          } else if measure(r[k]) > maxWidth {
            OneWordTail(r[k], words);
          }
        }
      } else {
        WrapFits(words[1..], test, maxWidth, measure);
        var rest := Wrapped(words[1..], test, maxWidth, measure);
        assert r == rest;
        forall k | 0 <= k < |r|
          ensures r[k] == current || measure(r[k]) <= maxWidth || OneWord(r[k], words)
        {
          assert r[k] == rest[k];
          if r[k] != test && measure(r[k]) > maxWidth {
            OneWordTail(r[k], words);
          }
        }
      }
    }
  }

  /** With at least one word there is at least one line: the last one is always closed. */
  lemma {:induction false} WrapNonEmpty(words: seq<string>, current: string, maxWidth: int, measure: string -> int)
    requires words != [] || current != ""
    ensures |Wrapped(words, current, maxWidth, measure)| >= 1
    decreases |words|
  {
    if words != [] {
      var test := current + words[0] + " ";
      if measure(test) <= maxWidth {
        WrapNonEmpty(words[1..], test, maxWidth, measure);
      }
    }
  }

  /** A first word too wide on its own line is preceded by an empty line. */
  lemma FirstWordTooWide(words: seq<string>, maxWidth: int, measure: string -> int)
    requires words != [] && measure(words[0] + " ") > maxWidth
    ensures |Wrapped(words, "", maxWidth, measure)| >= 1 && Wrapped(words, "", maxWidth, measure)[0] == ""
  {
    assert "" + words[0] + " " == words[0] + " ";
  }

  lemma {:induction false} MapLinesAppend(f: string -> string, lines: seq<string>, line: string)
    ensures MapLines(f, lines + [line]) == MapLines(f, lines) + [f(line)]
  {
    if lines != [] {
      assert (lines + [line])[1..] == lines[1..] + [line];
      assert (lines + [line])[0] == lines[0];
      MapLinesAppend(f, lines[1..], line);
    } else {
      assert [] + [line] == [line];
    }
  }

  lemma CloseLine(closed: seq<string>, line: string, rest: seq<string>)
    ensures closed + [line] + rest == closed + ([line] + rest)
  {
  }

  /** The text before the first space (all of it when there is none). */
  function FirstWord(s: string): string
    decreases |s|
  {
    if s == [] || s[0] == ' ' then [] else [s[0]] + FirstWord(s[1..])
  }

  /** A word without spaces followed by a space is the first word of what it starts. */
  lemma {:induction false} FirstWordOf(w: string, rest: string)
    requires ' ' !in w
    ensures FirstWord(w + " " + rest) == w
    decreases |w|
  {
    if w != [] {
      assert (w + " " + rest)[0] == w[0];
      assert (w + " " + rest)[1..] == w[1..] + " " + rest;
      FirstWordOf(w[1..], rest);
      assert [w[0]] + w[1..] == w;
    }
  }

  /** A non-empty line being built is where the first line of the rest of the wrap begins. */
  lemma {:induction false} FirstLineExtends(words: seq<string>, current: string, maxWidth: int, measure: string -> int)
    requires current != ""
    ensures var r := Wrapped(words, current, maxWidth, measure);
      |r| >= 1 && |current| <= |r[0]| && r[0][..|current|] == current
    decreases |words|
  {
    if words != [] {
      var test := current + words[0] + " ";
      if measure(test) <= maxWidth {
        FirstLineExtends(words[1..], test, maxWidth, measure);
        var r0 := Wrapped(words[1..], test, maxWidth, measure)[0];
        assert r0[..|current|] == r0[..|test|][..|current|];
      }
    }
  }

  /** Every line but the last was closed because its next word, with its space, did not fit. */
  predicate Greedy(lines: seq<string>, maxWidth: int, measure: string -> int) {
    forall k :: 0 <= k < |lines| - 1 ==> measure(lines[k] + FirstWord(lines[k + 1]) + " ") > maxWidth
  }

  /** The wrap breaks a line only when the next word would make it too wide. */
  lemma {:induction false} WrapGreedy(words: seq<string>, current: string, maxWidth: int, measure: string -> int)
    requires forall j :: 0 <= j < |words| ==> ' ' !in words[j]
    ensures Greedy(Wrapped(words, current, maxWidth, measure), maxWidth, measure)
    decreases |words|
  {
    if words != [] {
      var w := words[0];
      assert forall j :: 0 <= j < |words[1..]| ==> words[1..][j] == words[j + 1];
      if measure(current + w + " ") > maxWidth {
        var rest := Wrapped(words[1..], w + " ", maxWidth, measure);
        WrapGreedy(words[1..], w + " ", maxWidth, measure);
        FirstLineExtends(words[1..], w + " ", maxWidth, measure);
        assert rest[0] == w + " " + rest[0][|w| + 1..];
        FirstWordOf(w, rest[0][|w| + 1..]);
        var r := [current] + rest;
        forall k | 0 <= k < |r| - 1
          ensures measure(r[k] + FirstWord(r[k + 1]) + " ") > maxWidth
        {
          if k > 0 {
            assert r[k] == rest[k - 1] && r[k + 1] == rest[k];
          }
        }
      } else {
        WrapGreedy(words[1..], current + w + " ", maxWidth, measure);
      }
    }
  }

  /**
   * The wrap of a text: the lines hold its words in order, each line but the last was
   * closed exactly because the next word did not fit, and a line is too wide only when
   * it holds a single word.
   */
  lemma TextWrap(text: string, maxWidth: int, measure: string -> int)
    ensures var r := Wrapped(Split(text), "", maxWidth, measure);
      Concat(r) == Spaced(Split(text)) && Greedy(r, maxWidth, measure) &&
      forall k :: 0 <= k < |r| ==> r[k] == "" || measure(r[k]) <= maxWidth || OneWord(r[k], Split(text))
  {
    SplitNoSpace(text);
    WrapKeepsWords(Split(text), "", maxWidth, measure);
    WrapGreedy(Split(text), "", maxWidth, measure);
    WrapFits(Split(text), "", maxWidth, measure);
    assert "" + Spaced(Split(text)) == Spaced(Split(text));
  }

  /** One step of the wrap, seen from word i. */
  lemma WrapStep(words: seq<string>, i: nat, current: string, maxWidth: int, measure: string -> int)
    requires i < |words|
    ensures Wrapped(words[i..], current, maxWidth, measure) ==
      if measure(current + words[i] + " ") > maxWidth
      then [current] + Wrapped(words[i + 1..], words[i] + " ", maxWidth, measure)
      else Wrapped(words[i + 1..], current + words[i] + " ", maxWidth, measure)
  {
    assert words[i..][0] == words[i] && words[i..][1..] == words[i + 1..];
  }

  /** The sum of the first heights. */
  function Sum(heights: seq<int>): int
    decreases |heights|
  {
    if heights == [] then 0 else Sum(heights[..|heights| - 1]) + heights[|heights| - 1]
  }

  /** Consecutive lines are exactly one line height apart. */
  lemma Stacked(heights: seq<int>, k: nat)
    requires k < |heights|
    ensures Sum(heights[..k + 1]) == Sum(heights[..k]) + heights[k]
  {
    assert heights[..k + 1][..k] == heights[..k];
  }

  class UIText {
    const text: string
    /** None or 0 (falsy): no wrapping. */
    const maxWidth: Option<int>
    const posX: int
    const posY: int
    var renderedLines: seq<string>

    constructor (t: string, width: Option<int>, x: int, y: int, measure: string -> int)
      ensures text == t && maxWidth == width && posX == x && posY == y
      ensures width.None? || width == Some(0) ==> renderedLines == [t]
      ensures width.Some? && width.value != 0 ==>
        renderedLines == StripAll(Wrapped(Split(t), "", width.value, measure))
    {
      text, maxWidth, posX, posY := t, width, x, y;
      renderedLines := [];
      new;
      renderedLines := RenderLines(measure);
    }

    /**
     * _render_lines: the whole text as one line when maxWidth is falsy; otherwise the
     * greedy wrap of its words, each line stripped.
     */
    method RenderLines(measure: string -> int) returns (lines: seq<string>)
      ensures maxWidth.None? || maxWidth == Some(0) ==> lines == [text]
      ensures maxWidth.Some? && maxWidth.value != 0 ==>
        lines == StripAll(Wrapped(Split(text), "", maxWidth.value, measure))
    {
      if maxWidth.None? || maxWidth == Some(0) {
        return [text];
      }
      var max := maxWidth.value;
      var words := Split(text);
      ghost var raw: seq<string> := [];
      lines := [];
      var current := "";
      for i := 0 to |words|
        invariant lines == StripAll(raw)
        invariant raw + Wrapped(words[i..], current, max, measure) == Wrapped(words, "", max, measure)
      {
        WrapStep(words, i, current, max, measure);
        var testLine := current + words[i] + " ";
        if measure(testLine) > max {
          MapLinesAppend(TextUtil.Strip, raw, current);
          lines := lines + [TextUtil.Strip(current)];
          CloseLine(raw, current, Wrapped(words[i + 1..], words[i] + " ", max, measure));
          raw := raw + [current];
          current := words[i] + " ";
        } else {
          current := testLine;
        }
      }
      assert words[|words|..] == [];
      assert raw + Wrapped([], current, max, measure) == Wrapped(words, "", max, measure);
      if current != "" {
        MapLinesAppend(TextUtil.Strip, raw, current);
        lines := lines + [TextUtil.Strip(current)];
        raw := raw + [current];
      } else {
        assert raw + [] == raw;
      }
      assert raw == Wrapped(words, "", max, measure);
    }

    /**
     * draw: the point each line is aligned to, line k being placed the sum of the
     * heights of the lines above it below pos.
     */
    method Draw(lineHeight: string -> int) returns (anchors: seq<(int, int)>)
      ensures |anchors| == |renderedLines|
      ensures forall k :: 0 <= k < |anchors| ==>
        anchors[k] == (posX, posY + Sum(Heights(renderedLines, lineHeight)[..k]))
    {
      var heights := Heights(renderedLines, lineHeight);
      var yOffset := 0;
      anchors := [];
      for k := 0 to |renderedLines|
        invariant |anchors| == k
        invariant yOffset == Sum(heights[..k])
        invariant forall j :: 0 <= j < k ==> anchors[j] == (posX, posY + Sum(heights[..j]))
      {
        anchors := anchors + [(posX, posY + yOffset)];
        Stacked(heights, k);
        yOffset := yOffset + lineHeight(renderedLines[k]);
      }
    }
  }

  /** The heights of the rendered lines. */
  function Heights(lines: seq<string>, lineHeight: string -> int): (r: seq<int>)
    ensures |r| == |lines| && forall k :: 0 <= k < |r| ==> r[k] == lineHeight(lines[k])
  {
    if lines == [] then [] else [lineHeight(lines[0])] + Heights(lines[1..], lineHeight)
  }
}
