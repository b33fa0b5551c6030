/**
 * A configuration comment: its text lines, how it is written to a file
 * (optionally boxed in '#' borders with blank rows) and how it is read back.
 */
module Comment {
  import opened Wrappers
  import opened Strings

  const NEWLINE: string := "\n"

  /**
   * `ConfigFormattingRules.CommentStyle`: whether to draw a border and
   * blank rows, the text put around each line, and the decoration of the
   * top and bottom blank rows.
   */
  datatype CommentStyle = CommentStyle(
    drawBorder: bool,
    drawSpace: bool,
    commentPrefix: string,
    commentSuffix: string,
    spacePrefixTop: string,
    spaceSuffixTop: string,
    spaceCharTop: char,
    spacePrefixBottom: string,
    spaceSuffixBottom: string,
    spaceCharBottom: char)

  /** Every input string split on newlines, the pieces kept in order. */
  function SplitAll(input: seq<string>): (r: seq<string>)
  {
    if input == [] then []
    else SplitAll(input[..|input| - 1]) + JavaSplit(input[|input| - 1], NEWLINE)
  }

  /** `toString`: the lines joined with newlines, "" when there are none. */
  function Text(lines: seq<string>): string {
    if lines == [] then "" else Join(NEWLINE, lines)
  }

  /** A single text not ending in a newline survives the split and the join. */
  lemma TextRoundTrip(s: string)
    requires !EndsWith(s, NEWLINE)
    ensures Text(SplitAll([s])) == s
  {
    var empty: seq<string> := [];
    assert [s][..0] == empty;
    assert SplitAll([s]) == JavaSplit(s, NEWLINE);
    JoinJavaSplit(s, NEWLINE);
  }

  /** A text with a trailing newline loses it. */
  lemma TrailingNewlineLost()
    ensures Text(SplitAll(["a\n"])) == "a"
  {
    var s := "a\n";
    var empty: seq<string> := [];
    assert [s][..0] == empty;
    assert s[0..1] == "a" && s[1..2] == NEWLINE;
    assert !MatchAt(s, NEWLINE, 0) && MatchAt(s, NEWLINE, 1);
    assert IndexFrom(s, NEWLINE, 0) == 1;
    assert s[2..] == "" && IndexFrom("", NEWLINE, 0) == -1;
    assert RawSplit(s, NEWLINE) == ["a", ""];
    assert DropTrailingEmpty(["a", ""]) == ["a"] by {
      assert ["a", ""][..1] == ["a"];
    }
  }

  // ---------------------------------------------------------------------------
  // Writing
  // ---------------------------------------------------------------------------

  /** The length of the longest line, 0 when there are none. */
  function Longest(lines: seq<string>): (r: nat)
    ensures forall i :: 0 <= i < |lines| ==> |lines[i]| <= r
    ensures lines == [] ==> r == 0
    ensures lines != [] ==> exists i :: 0 <= i < |lines| && |lines[i]| == r
  {
    if lines == [] then 0
    else
      var m := Longest(lines[..|lines| - 1]);
      assert forall i :: 0 <= i < |lines| - 1 ==> lines[i] == lines[..|lines| - 1][i];
      if |lines[|lines| - 1]| > m then |lines[|lines| - 1]| else m
  }

  /** `new String(new char[n]).replace('\0', c)`, which throws for a negative `n`. */
  function Fill(n: int, c: char): (r: Option<string>)
    ensures r.Some? <==> n >= 0
    ensures r.Some? ==> |r.value| == n && forall i :: 0 <= i < n ==> r.value[i] == c
  {
    if n < 0 then None else Some(Repeat(c, n))
  }

  /** A written chunk: it starts with the indent and ends with a newline. */
  predicate Framed(c: string, indent: string) {
    StartsWith(c, indent) && EndsWith(c, "\n")
  }

  /** The text of one comment line, padded to `width` when that is not 0. */
  function TextLine(line: string, style: CommentStyle, indent: string, width: nat): (r: string)
    requires width == 0 || |line| <= width
  {
    indent + "#" + style.commentPrefix
    + (if width == 0 then line else line + Repeat(' ', width - |line|))
    + style.commentSuffix + (if style.drawBorder then "#\n" else "\n")
  }

  /** The text lines in order. */
  function Body(lines: seq<string>, style: CommentStyle, indent: string, width: nat): (r: seq<string>)
    requires width == 0 || forall i :: 0 <= i < |lines| ==> |lines[i]| <= width
    ensures |r| == |lines|
  {
    if lines == [] then []
    else Body(lines[..|lines| - 1], style, indent, width) + [TextLine(lines[|lines| - 1], style, indent, width)]
  }

  /** The text line at each position renders the stored line at that position. */
  lemma {:induction false} BodyLines(lines: seq<string>, style: CommentStyle, indent: string, width: nat)
    requires width == 0 || forall i :: 0 <= i < |lines| ==> |lines[i]| <= width
    ensures forall i :: 0 <= i < |lines| ==> Body(lines, style, indent, width)[i] == TextLine(lines[i], style, indent, width)
  {
    if lines != [] {
      var init := lines[..|lines| - 1];
      BodyLines(init, style, indent, width);
      assert forall i :: 0 <= i < |init| ==> init[i] == lines[i];
    }
  }

  /** The top and bottom border: `spacing + 2` '#' characters. */
  function BorderLine(indent: string, spacing: nat): (r: string)
  {
    indent + Repeat('#', spacing + 2) + "\n"
  }

  /** The lone '#' row written for blank rows without a border. */
  function EdgeLine(indent: string): (r: string)
  {
    indent + "#\n"
  }

  /** A blank row inside the border; it throws when the decoration is wider than the border. */
  function SpaceLine(indent: string, pre: string, suf: string, c: char, spacing: nat): (r: Option<string>)
    ensures r.Some? <==> |pre| + |suf| <= spacing
  {
    var fill := Fill(spacing - |pre| - |suf|, c);
    if fill.None? then None else Some(indent + "#" + pre + fill.value + suf + "#\n")
  }

  /** Each kind of chunk starts with the indent and ends with a newline; with a border all have one width. */
  lemma LineShapes(indent: string, style: CommentStyle, spacing: nat)
    ensures Framed(BorderLine(indent, spacing), indent) && |BorderLine(indent, spacing)| == |indent| + spacing + 3
    ensures Framed(EdgeLine(indent), indent) && |EdgeLine(indent)| == |indent| + 2
    ensures forall pre, suf, c :: SpaceLine(indent, pre, suf, c, spacing).Some? ==>
      Framed(SpaceLine(indent, pre, suf, c, spacing).value, indent) &&
      |SpaceLine(indent, pre, suf, c, spacing).value| == |indent| + spacing + 3
    ensures forall line, width: nat :: (width == 0 || |line| <= width) ==>
      Framed(TextLine(line, style, indent, width), indent) &&
      |TextLine(line, style, indent, width)| == |indent| + |style.commentPrefix| + (if width == 0 then |line| else width)
                                               + |style.commentSuffix| + (if style.drawBorder then 3 else 2)
  {
    var b := BorderLine(indent, spacing);
    assert b[..|indent|] == indent && b[|b| - 1..] == "\n";
    var e := EdgeLine(indent);
    assert e[..|indent|] == indent && e[|e| - 1..] == "\n";
    forall pre, suf, c | SpaceLine(indent, pre, suf, c, spacing).Some?
      ensures Framed(SpaceLine(indent, pre, suf, c, spacing).value, indent)
    {
      var t := SpaceLine(indent, pre, suf, c, spacing).value;
      assert t[..|indent|] == indent && t[|t| - 1..] == "\n";
    }
    forall line, width: nat | width == 0 || |line| <= width
      ensures Framed(TextLine(line, style, indent, width), indent)
    {
      var t := TextLine(line, style, indent, width);
      assert t[..|indent|] == indent && t[|t| - 1..] == "\n";
    }
  }

  /** What `writeComment` writes, and whether it finished without an exception. */
  datatype Rendering = Rendering(chunks: seq<string>, ok: bool)

  /** The width of the text between the border's '#' characters. */
  function Spacing(lines: seq<string>, style: CommentStyle): nat {
    (if style.drawBorder then Longest(lines) else 0) + |style.commentPrefix| + |style.commentSuffix|
  }

  /** What is written before the text lines. */
  function Top(style: CommentStyle, indent: string, spacing: nat): Rendering {
    if style.drawBorder then
      if style.drawSpace then
        var space := SpaceLine(indent, style.spacePrefixTop, style.spaceSuffixTop, style.spaceCharTop, spacing);
        if space.None? then Rendering([BorderLine(indent, spacing)], false)
        else Rendering([BorderLine(indent, spacing), space.value], true)
      else Rendering([BorderLine(indent, spacing)], true)
    else if style.drawSpace then Rendering([EdgeLine(indent)], true)
    else Rendering([], true)
  }

  /** What is written after the text lines. */
  function Bottom(style: CommentStyle, indent: string, spacing: nat): Rendering {
    if style.drawBorder then
      if style.drawSpace then
        var space := SpaceLine(indent, style.spacePrefixBottom, style.spaceSuffixBottom, style.spaceCharBottom, spacing);
        if space.None? then Rendering([], false)
        else Rendering([space.value, BorderLine(indent, spacing)], true)
      else Rendering([BorderLine(indent, spacing)], true)
    else if style.drawSpace then Rendering([EdgeLine(indent)], true)
    else Rendering([], true)
  }

  /** `writeComment(output, offset, style)`, as the sequence of writes. */
  function Render(lines: seq<string>, style: CommentStyle, offset: nat): Rendering {
    var indent := Repeat(' ', offset);
    var spacing := Spacing(lines, style);
    var top := Top(style, indent, spacing);
    if !top.ok then top
    else
      var bottom := Bottom(style, indent, spacing);
      var body := Body(lines, style, indent, if style.drawBorder then Longest(lines) else 0);
      Rendering(top.chunks + body + bottom.chunks, bottom.ok)
  }

  /** The rendering is the top, the body and the bottom, stopping after a failed top. */
  lemma RenderParts(lines: seq<string>, style: CommentStyle, offset: nat)
    ensures var indent, spacing := Repeat(' ', offset), Spacing(lines, style);
      var top, bottom := Top(style, indent, spacing), Bottom(style, indent, spacing);
      var body := Body(lines, style, indent, if style.drawBorder then Longest(lines) else 0);
      Render(lines, style, offset) == if !top.ok then top else Rendering(top.chunks + body + bottom.chunks, bottom.ok)
  {
  }

  /**
   * A finished rendering has one chunk per line plus two for the border
   * and two for the blank rows; the rendering fails only when a blank
   * row's decoration is wider than the border.
   */
  lemma RenderCount(lines: seq<string>, style: CommentStyle, offset: nat)
    ensures var r := Render(lines, style, offset);
      r.ok ==> |r.chunks| == |lines| + (if style.drawBorder then 2 else 0) + (if style.drawSpace then 2 else 0)
    ensures !Render(lines, style, offset).ok <==>
      style.drawBorder && style.drawSpace &&
      (Spacing(lines, style) < |style.spacePrefixTop| + |style.spaceSuffixTop| ||
       Spacing(lines, style) < |style.spacePrefixBottom| + |style.spaceSuffixBottom|)
  {
  }

  /** Every chunk starts with `offset` spaces and ends with a newline. */
  lemma RenderIndent(lines: seq<string>, style: CommentStyle, offset: nat)
    ensures forall c :: c in Render(lines, style, offset).chunks ==> Framed(c, Repeat(' ', offset))
  {
    var indent := Repeat(' ', offset);
    var spacing := Spacing(lines, style);
    var width := if style.drawBorder then Longest(lines) else 0;
    var body := Body(lines, style, indent, width);
    BodyLines(lines, style, indent, width);
    LineShapes(indent, style, spacing);
    assert forall c :: c in body ==> Framed(c, indent);
    assert forall c :: c in Top(style, indent, spacing).chunks ==> Framed(c, indent);
    assert forall c :: c in Bottom(style, indent, spacing).chunks ==> Framed(c, indent);
  }

  /** With a border, every chunk has the same length, one more than the border's '#' run plus the indent. */
  lemma RenderEqualWidth(lines: seq<string>, style: CommentStyle, offset: nat)
    requires style.drawBorder
    ensures forall c :: c in Render(lines, style, offset).chunks ==>
      |c| == offset + Spacing(lines, style) + 3
  {
    var indent := Repeat(' ', offset);
    var spacing := Spacing(lines, style);
    var width := Longest(lines);
    var body := Body(lines, style, indent, width);
    BodyLines(lines, style, indent, width);
    LineShapes(indent, style, spacing);
    forall i | 0 <= i < |body| ensures |body[i]| == offset + spacing + 3 {
      assert body[i] == TextLine(lines[i], style, indent, width);
    }
    assert forall c :: c in Top(style, indent, spacing).chunks ==> |c| == offset + spacing + 3;
    assert forall c :: c in Bottom(style, indent, spacing).chunks ==> |c| == offset + spacing + 3;
  }

  /** The comment's own style, or else the default one. */
  function StyleOf(own: Option<CommentStyle>, defaultStyle: CommentStyle): CommentStyle {
    if own.Some? then own.value else defaultStyle
  }

  /** The output `Writer`: what has been written to it so far. */
  class Writer {
    var written: seq<string>

    constructor ()
      ensures written == []
    {
      written := [];
    }

    method Write(s: string)
      modifies this
      ensures written == old(written) + [s]
    {
      written := written + [s];
    }
  }

  /** A comment: its lines and its own style, if any. */
  class Comment {
    var lines: seq<string>
    var commentStyle: Option<CommentStyle>

    /** `Comment(commentStyle, lines)`: each given string is split on newlines; a null list gives no lines. */
    constructor (commentStyle: Option<CommentStyle>, input: Option<seq<string>>)
      ensures this.commentStyle == commentStyle
      ensures lines == if input.Some? then SplitAll(input.value) else []
    {
      this.commentStyle := commentStyle;
      var acc: seq<string> := [];
      if input.Some? {
        var ss := input.value;
        for i := 0 to |ss|
          invariant acc == SplitAll(ss[..i])
        {
          assert ss[..i + 1][..i] == ss[..i];
          acc := acc + JavaSplit(ss[i], NEWLINE);
        }
        assert ss[..|ss|] == ss;
      }
      lines := acc;
    }

    /** `toString`. */
    function ToString(): string
      reads this
    {
      Text(lines)
    }

    /**
     * `writeComment(output, offset, defaultStyle)`: the comment's own style
     * or the default; the writes stop at the first exception.
     */
    method WriteComment(output: Writer, offset: nat, defaultStyle: CommentStyle) returns (ok: bool)
      modifies output
      ensures output.written == old(output.written) + Render(lines, StyleOf(commentStyle, defaultStyle), offset).chunks
      ensures ok == Render(lines, StyleOf(commentStyle, defaultStyle), offset).ok
    {
      ok := WriteLines(output, lines, StyleOf(commentStyle, defaultStyle), offset);
    }
  }

  /** The writes of `writeComment` for the given lines and style. */
  method WriteLines(output: Writer, lines: seq<string>, style: CommentStyle, offset: nat) returns (ok: bool)
    modifies output
    ensures output.written == old(output.written) + Render(lines, style, offset).chunks
    ensures ok == Render(lines, style, offset).ok
  {
    var indent := Repeat(' ', offset);
    var minSpacing := if style.drawBorder then Longest(lines) else 0;
    var borderSpacing := Spacing(lines, style);
    RenderParts(lines, style, offset);
    ghost var top := Top(style, indent, borderSpacing);
    ghost var body := Body(lines, style, indent, minSpacing);
    ghost var bottom := Bottom(style, indent, borderSpacing);
    ok := WriteTop(output, style, indent, borderSpacing);
    if !ok {
      return;
    }
    ghost var mid := output.written;
    WriteBody(output, lines, style, indent, minSpacing);
    ghost var afterBody := output.written;
    ok := WriteBottom(output, style, indent, borderSpacing);
    assert output.written == afterBody + bottom.chunks;
    assert afterBody == mid + body;
    assert mid == old(output.written) + top.chunks;
    assert output.written == old(output.written) + (top.chunks + body + bottom.chunks);
  }

  /** The writes before the text lines; a blank row too narrow for its decoration throws. */
  method WriteTop(output: Writer, style: CommentStyle, indent: string, borderSpacing: nat) returns (ok: bool)
    modifies output
    ensures output.written == old(output.written) + Top(style, indent, borderSpacing).chunks
    ensures ok == Top(style, indent, borderSpacing).ok
  {
    if style.drawBorder {
      output.Write(BorderLine(indent, borderSpacing));
      if style.drawSpace {
        var space := SpaceLine(indent, style.spacePrefixTop, style.spaceSuffixTop, style.spaceCharTop, borderSpacing);
        if space.None? {
          return false;
        }
        output.Write(space.value);
      }
    } else if style.drawSpace {
      output.Write(EdgeLine(indent));
    }
    return true;
  }

  /** The text lines, one write each. */
  method WriteBody(output: Writer, lines: seq<string>, style: CommentStyle, indent: string, width: nat)
    requires width == 0 || forall j :: 0 <= j < |lines| ==> |lines[j]| <= width
    modifies output
    ensures output.written == old(output.written) + Body(lines, style, indent, width)
  {
    for i := 0 to |lines|
      invariant output.written == old(output.written) + Body(lines[..i], style, indent, width)
    {
      assert lines[..i + 1][..i] == lines[..i] && lines[..i + 1][i] == lines[i];
      output.Write(TextLine(lines[i], style, indent, width));
    }
    assert lines[..|lines|] == lines;
  }

  /** The writes after the text lines. */
  method WriteBottom(output: Writer, style: CommentStyle, indent: string, borderSpacing: nat) returns (ok: bool)
    modifies output
    ensures output.written == old(output.written) + Bottom(style, indent, borderSpacing).chunks
    ensures ok == Bottom(style, indent, borderSpacing).ok
  {
    if style.drawBorder {
      if style.drawSpace {
        var space := SpaceLine(indent, style.spacePrefixBottom, style.spaceSuffixBottom, style.spaceCharBottom, borderSpacing);
        if space.None? {
          return false;
        }
        output.Write(space.value);
      }
      output.Write(BorderLine(indent, borderSpacing));
    } else if style.drawSpace {
      output.Write(EdgeLine(indent));
    }
    return true;
  }

  // ---------------------------------------------------------------------------
  // Reading
  // ---------------------------------------------------------------------------

  /** How many rows the border and the blank row take at each end. */
  function LinePad(style: CommentStyle): nat {
    (if style.drawBorder then 1 else 0) + (if style.drawSpace then 1 else 0)
  }

  /** A stored line long enough for `substring` to cut its prefix and suffix. */
  predicate Fits(s: string, style: CommentStyle) {
    |style.commentPrefix| + |style.commentSuffix| <= |s|
  }

  /** One stored line without the prefix and suffix, trimmed. */
  function StripLine(s: string, style: CommentStyle): string
    requires Fits(s, style)
  {
    Trim(s[|style.commentPrefix|..|s| - |style.commentSuffix|])
  }

  /** Every line between the padding rows fits its prefix and suffix, and there are enough rows. */
  predicate AllFit(lines: seq<string>, style: CommentStyle) {
    && 2 * LinePad(style) <= |lines|
    && forall i :: LinePad(style) <= i < |lines| - LinePad(style) ==> Fits(lines[i], style)
  }

  /** The lines between the padding rows, each stripped. */
  function StripInner(lines: seq<string>, style: CommentStyle): (r: seq<string>)
    requires AllFit(lines, style)
    ensures |r| == |lines| - 2 * LinePad(style)
    ensures forall i :: 0 <= i < |r| ==> r[i] == StripLine(lines[LinePad(style) + i], style)
  {
    var pad := LinePad(style);
    seq(|lines| - 2 * pad, i requires 0 <= i < |lines| - 2 * pad => StripLine(lines[pad + i], style))
  }

  /** The stripped inner lines, or `None` when `subList` or `substring` would throw. */
  function Stripped(lines: seq<string>, style: CommentStyle): (r: Option<seq<string>>)
    ensures r.Some? <==> AllFit(lines, style)
    ensures r.Some? ==> |r.value| == |lines| - 2 * LinePad(style)
    ensures r.Some? ==> forall i :: 0 <= i < |r.value| ==> r.value[i] == StripLine(lines[LinePad(style) + i], style)
  {
    if AllFit(lines, style) then Some(StripInner(lines, style)) else None
  }

  /**
   * `loadComment(lines)`: the style is recognised by `parseStyle`
   * (`ConfigFormattingRules.parseStyle`), the border rows are dropped and
   * every other line is stripped; `None` stands for the exception thrown
   * on a comment too short for its style.
   */
  method LoadComment(lines: seq<string>, parseStyle: seq<string> -> CommentStyle) returns (r: Option<Comment>)
    ensures r.Some? <==> Stripped(lines, parseStyle(lines)).Some?
    ensures r.Some? ==> fresh(r.value) && r.value.commentStyle == Some(parseStyle(lines))
    ensures r.Some? ==> r.value.lines == SplitAll(Stripped(lines, parseStyle(lines)).value)
  {
    var style := parseStyle(lines);
    var stripped := Stripped(lines, style);
    if stripped.None? {
      return None;
    }
    var c := new Comment(Some(style), Some(stripped.value));
    return Some(c);
  }

  /** No line holds a newline. */
  predicate NoNewlines(lines: seq<string>) {
    forall i :: 0 <= i < |lines| ==> '\n' !in lines[i]
  }

  /** Splitting lines that hold no newline leaves them as they are. */
  lemma {:induction false} SplitAllPlain(input: seq<string>)
    requires NoNewlines(input)
    ensures SplitAll(input) == input
  {
    if input != [] {
      var last := input[|input| - 1];
      FirstCharAbsent(last, NEWLINE);
      SplitAllPlain(input[..|input| - 1]);
    }
  }

  /** Stripping a line without newlines leaves none. */
  lemma StripPlain(line: string, style: CommentStyle)
    requires Fits(line, style) && '\n' !in line
    ensures '\n' !in StripLine(line, style)
  {
    var inner := line[|style.commentPrefix|..|line| - |style.commentSuffix|];
    forall c | c in inner ensures c in line {
      var j :| 0 <= j < |inner| && inner[j] == c;
      assert line[|style.commentPrefix| + j] == c;
    }
  }

  /**
   * Read back from lines without newlines, a comment has one line per
   * inner stored line: that line without prefix and suffix, trimmed.
   */
  lemma LoadedLines(lines: seq<string>, style: CommentStyle)
    requires Stripped(lines, style).Some?
    requires NoNewlines(lines)
    ensures AllFit(lines, style) && SplitAll(Stripped(lines, style).value) == StripInner(lines, style)
  {
    StripInnerPlain(lines, style);
    SplitAllPlain(StripInner(lines, style));
  }

  /** Stripping lines without newlines leaves none. */
  lemma StripInnerPlain(lines: seq<string>, style: CommentStyle)
    requires AllFit(lines, style)
    requires NoNewlines(lines)
    ensures NoNewlines(StripInner(lines, style))
  {
    var pad := LinePad(style);
    var s := StripInner(lines, style);
    forall i | 0 <= i < |s| ensures '\n' !in s[i] {
      StripPlain(lines[pad + i], style);
    }
  }
}
