/**
 Greedy character-by-character wrapping of a label, used to count the lines a
 file name occupies. Text is a sequence of code points (the iteration runs
 over `[...text]`), and the canvas measure is an abstract `Measure`: any
 width the renderer might report for a string.
 */
module LineWrap {

  type Measure = string -> nat

  function Last(lines: seq<string>): string
    requires |lines| > 0
  {
    lines[|lines| - 1]
  }

  /** The lines joined back together, in order. */
  function Concat(lines: seq<string>): string
  {
    if lines == [] then [] else Concat(lines[..|lines| - 1]) + Last(lines)
  }

  /** One step of the wrap: `c` joins the current line while the line still
      fits in `maxWidth`, otherwise it starts a new line of its own. */
  function Place(width: Measure, maxWidth: int, lines: seq<string>, c: char): (r: seq<string>)
    requires |lines| > 0
  {
    var lineText := Last(lines) + [c];
    if width(lineText) > maxWidth then lines + [[c]]
    else lines[|lines| - 1 := lineText]
  }

  /** The lines after placing every character of `text`, starting from one
      empty line. */
  function WrapLines(width: Measure, maxWidth: int, text: string): (r: seq<string>)
    ensures |r| >= 1
  {
    if text == [] then [""]
    else Place(width, maxWidth, WrapLines(width, maxWidth, text[..|text| - 1]), text[|text| - 1])
  }

  /** The lines counted for a label: text that fits is one line and is not
      wrapped at all. */
  function Lines(width: Measure, maxWidth: int, text: string): seq<string>
  {
    if width(text) > maxWidth then WrapLines(width, maxWidth, text) else [""]
  }

  // ---------------------------------------------------------------------------
  // The shape of a wrap

  /** Every line is the initial empty line, a line that fits, or a single
      character that overflowed on its own; lines after the first are never
      empty. */
  ghost predicate WellShaped(width: Measure, maxWidth: int, lines: seq<string>)
  {
    && |lines| >= 1
    && (lines[0] == "" || width(lines[0]) <= maxWidth)
    && forall i :: 1 <= i < |lines| ==>
         |lines[i]| >= 1 && (|lines[i]| == 1 || width(lines[i]) <= maxWidth)
  }

  /** Every break was forced: the next line's first character did not fit
      after the previous line. */
  ghost predicate Greedy(width: Measure, maxWidth: int, lines: seq<string>)
  {
    forall i :: 1 <= i < |lines| && |lines[i]| >= 1 ==>
      width(lines[i - 1] + [lines[i][0]]) > maxWidth
  }

  lemma {:induction false} ConcatPlace(width: Measure, maxWidth: int, lines: seq<string>, c: char)
    requires |lines| > 0
    ensures Concat(Place(width, maxWidth, lines, c)) == Concat(lines) + [c]
  {
    var r := Place(width, maxWidth, lines, c);
    var n := |lines|;
    var lineText := Last(lines) + [c];
    if width(lineText) > maxWidth {
      assert r[..n] == lines;
    } else {
      assert r[..n - 1] == lines[..n - 1];
      assert Concat(r) == Concat(lines[..n - 1]) + Last(lines) + [c];
    }
  }

  /** Wrapping loses and invents no character: the lines join back to the
      text. */
  lemma {:induction false} WrapConcat(width: Measure, maxWidth: int, text: string)
    ensures Concat(WrapLines(width, maxWidth, text)) == text
  {
    if text == [] {
      assert Concat([""]) == Concat([]) + "";
    } else {
      var prefix := text[..|text| - 1];
      WrapConcat(width, maxWidth, prefix);
      ConcatPlace(width, maxWidth, WrapLines(width, maxWidth, prefix), text[|text| - 1]);
      assert prefix + [text[|text| - 1]] == text;
    }
  }

  lemma {:induction false} PlaceKeepsShape(width: Measure, maxWidth: int, lines: seq<string>, c: char)
    requires WellShaped(width, maxWidth, lines) && Greedy(width, maxWidth, lines)
    ensures WellShaped(width, maxWidth, Place(width, maxWidth, lines, c))
    ensures Greedy(width, maxWidth, Place(width, maxWidth, lines, c))
    ensures |Place(width, maxWidth, lines, c)| <= |lines| + 1
  {
    var r := Place(width, maxWidth, lines, c);
    var n := |lines|;
    if width(Last(lines) + [c]) <= maxWidth {
      forall i | 1 <= i < |r| && |r[i]| >= 1
        ensures width(r[i - 1] + [r[i][0]]) > maxWidth
      {
        if i == n - 1 {
          assert r[i][0] == lines[i][0];
        }
      }
    }
  }

  /** The lines of a wrap are well shaped and every break was forced. */
  lemma {:induction false} WrapShape(width: Measure, maxWidth: int, text: string)
    ensures WellShaped(width, maxWidth, WrapLines(width, maxWidth, text))
    ensures Greedy(width, maxWidth, WrapLines(width, maxWidth, text))
    ensures |WrapLines(width, maxWidth, text)| <= |text| + 1
  {
    if text != [] {
      var prefix := text[..|text| - 1];
      WrapShape(width, maxWidth, prefix);
      PlaceKeepsShape(width, maxWidth, WrapLines(width, maxWidth, prefix), text[|text| - 1]);
    }
  }

  /** The first line stays empty exactly when the first character did not
      fit on its own; it is then never filled and still counts as a line. */
  lemma {:induction false} EmptyFirstLineIffFirstCharOverflows(width: Measure, maxWidth: int, text: string)
    requires text != []
    ensures WrapLines(width, maxWidth, text)[0] == "" <==> width([text[0]]) > maxWidth
    ensures WrapLines(width, maxWidth, text)[0] == "" ==> |WrapLines(width, maxWidth, text)| >= 2
  {
    var prefix := text[..|text| - 1];
    if prefix == [] {
      assert WrapLines(width, maxWidth, prefix) == [""];
      assert [""][0] + [text[0]] == [text[0]];
    } else {
      EmptyFirstLineIffFirstCharOverflows(width, maxWidth, prefix);
      assert prefix[0] == text[0];
    }
  }

  lemma ConcatOfOne(lines: seq<string>)
    ensures |lines| == 1 ==> Concat(lines) == lines[0]
  {
    if |lines| == 1 {
      assert lines[..0] == [];
    }
  }

  /** A single line results exactly when the text fits or is empty. */
  lemma {:induction false} SingleLineExactlyWhenFits(width: Measure, maxWidth: int, text: string)
    ensures |Lines(width, maxWidth, text)| == 1 <==> text == [] || width(text) <= maxWidth
  {
    if width(text) > maxWidth && text != [] {
      var lines := WrapLines(width, maxWidth, text);
      WrapConcat(width, maxWidth, text);
      WrapShape(width, maxWidth, text);
      ConcatOfOne(lines);
    }
  }

  // ---------------------------------------------------------------------------
  // The count

  /** The number of lines `text` wraps to within `maxWidth`. */
  method LineCount(text: string, width: Measure, maxWidth: int) returns (count: nat)
    ensures count == |Lines(width, maxWidth, text)|
    ensures 1 <= count <= |text| + 1
    ensures count == 1 <==> text == [] || width(text) <= maxWidth
  {
    var lines := [""];
    if width(text) > maxWidth {
      var i := 0;
      while i < |text|
        invariant 0 <= i <= |text|
        invariant lines == WrapLines(width, maxWidth, text[..i])
      {
        var lineCount := |lines| - 1;
        var lineText := lines[lineCount] + [text[i]];
        if width(lineText) > maxWidth {
          lines := lines + [[text[i]]];
        } else {
          lines := lines[lineCount := lineText];
        }
        assert text[..i + 1][..i] == text[..i];
        i := i + 1;
      }
      assert text[..i] == text;
    }
    count := |lines|;
    WrapShape(width, maxWidth, text);
    SingleLineExactlyWhenFits(width, maxWidth, text);
  }
}
