/** The article renderer: a line-by-line block classifier with a paragraph
    buffer, and the inline rewrite of `**bold**` and `*italic*` into HTML.
    An element stores the text the renderer hands to `formatText` (the item
    text, the paragraph's buffered lines); `ItemHtml` and `ParagraphHtml`
    give the markup placed inside it. */
module Markdown {
  import opened Common

  // ---------------------------------------------------------------------
  // text.split('\n') and lines.join(' ')
  // ---------------------------------------------------------------------

  /** `s.split(sep)` for a one-character separator: the pieces between
      separators, one more than the number of separators. */
  function Split(s: string, sep: char): (parts: seq<string>)
    ensures |parts| >= 1
    ensures forall i :: 0 <= i < |parts| ==> sep !in parts[i]
  {
    if s == [] then [[]]
    else
      var rest := Split(s[1..], sep);
      if s[0] == sep then [[]] + rest
      else
        var parts := [[s[0]] + rest[0]] + rest[1..];
        assert forall i :: 1 <= i < |parts| ==> parts[i] == rest[i];
        parts
  }

  /** `parts.join(sep)`. */
  function Join(parts: seq<string>, sep: string): string
    requires |parts| >= 1
  {
    if |parts| == 1 then parts[0] else parts[0] + sep + Join(parts[1..], sep)
  }

  /** Joining the pieces back with the separator gives the text. */
  lemma {:induction false} SplitJoin(s: string, sep: char)
    ensures Join(Split(s, sep), [sep]) == s
  {
    if s != [] {
      SplitJoin(s[1..], sep);
      var rest := Split(s[1..], sep);
      if s[0] == sep {
        assert ([[]] + rest)[1..] == rest;
      } else if |rest| > 1 {
        var parts := [[s[0]] + rest[0]] + rest[1..];
        assert parts[1..] == rest[1..];
      }
    }
  }

  lemma {:induction false} SplitPlainPrefix(a: string, t: string, sep: char)
    requires sep !in a
    ensures Split(a + t, sep) == [a + Split(t, sep)[0]] + Split(t, sep)[1..]
  {
    var st := Split(t, sep);
    if a != [] {
      SplitPlainPrefix(a[1..], t, sep);
      assert a[0] in a;
      assert (a + t)[0] == a[0] != sep;
      assert (a + t)[1..] == a[1..] + t;
      assert [a[0]] + (a[1..] + st[0]) == a + st[0];
    } else {
      assert a + t == t;
      assert a + st[0] == st[0];
      assert [st[0]] + st[1..] == st;
    }
  }

  /** Pieces without the separator split back into themselves. */
  lemma {:induction false} JoinSplit(parts: seq<string>, sep: char)
    requires |parts| >= 1
    requires forall i :: 0 <= i < |parts| ==> sep !in parts[i]
    ensures Split(Join(parts, [sep]), sep) == parts
  {
    if |parts| == 1 {
      SplitPlainPrefix(parts[0], [], sep);
      assert parts[0] + [] == parts[0];
    } else {
      var tail := Join(parts[1..], [sep]);
      JoinSplit(parts[1..], sep);
      SplitPlainPrefix(parts[0], [sep] + tail, sep);
      assert parts[0] + [sep] + tail == parts[0] + ([sep] + tail);
      assert ([sep] + tail)[1..] == tail;
      assert Split([sep] + tail, sep) == [[]] + Split(tail, sep);
      assert parts[0] + [] == parts[0];
      assert parts == [parts[0]] + parts[1..];
    }
  }

  // ---------------------------------------------------------------------
  // Block classification
  // ---------------------------------------------------------------------

  datatype Element =
    | Heading(level: nat, text: string)
    | Item(text: string)
    | Rule
    | Paragraph(lines: seq<string>)

  datatype LineKind = Header(level: nat) | ListLine | RuleLine | BlankLine | TextLine

  /** The branch of the `forEach` body a line takes, tested in the
      renderer's order. */
  function KindOf(line: string): (k: LineKind)
    ensures k.Header? ==> 1 <= k.level <= 3 && |line| >= k.level + 1
    ensures k == ListLine ==> |line| >= 2
  {
    if IsPrefix("# ", line) then Header(1)
    else if IsPrefix("## ", line) then Header(2)
    else if IsPrefix("### ", line) then Header(3)
    else if IsPrefix("- ", line) then ListLine
    else if TrimWith(line, IsJsSpace) == "---" then RuleLine
    else if TrimWith(line, IsJsSpace) == "" then BlankLine
    else TextLine
  }

  predicate IsTextLine(line: string) { KindOf(line) == TextLine }

  /** The element a header, list or rule line yields on its own: the header
      text is the line minus its marker and is not inline-formatted. */
  function Structural(line: string): (s: Option<Element>)
    ensures s.Some? ==> !s.value.Paragraph?
    ensures IsTextLine(line) ==> s.None?
  {
    match KindOf(line)
    case Header(level) => Some(Heading(level, line[level + 1..]))
    case ListLine => Some(Item(line[2..]))
    case RuleLine => Some(Rule)
    case _ => None
  }

  /** The renderer's state: `elements` and the `currentElement` buffer. */
  datatype Acc = Acc(elements: seq<Element>, buffer: seq<string>)

  /** Emit the pending paragraph, if any. */
  function Flush(acc: Acc): Acc
  {
    if |acc.buffer| > 0 then Acc(acc.elements + [Paragraph(acc.buffer)], []) else acc
  }

  /** One pass of the `forEach` body. */
  function Step(acc: Acc, line: string): Acc
  {
    if IsTextLine(line) then Acc(acc.elements, acc.buffer + [line])
    else
      var f := Flush(acc);
      var s := Structural(line);
      if s.Some? then Acc(f.elements + [s.value], []) else f
  }

  function Fold(lines: seq<string>): Acc
  {
    if lines == [] then Acc([], [])
    else Step(Fold(lines[..|lines| - 1]), lines[|lines| - 1])
  }

  /** The elements of a list of lines, with the final flush. */
  function Render(lines: seq<string>): seq<Element>
  {
    Flush(Fold(lines)).elements
  }

  /** One pass of the `forEach` body over `elements` and the
      `currentElement` buffer. */
  method RenderLine(elements: seq<Element>, current: seq<string>, line: string)
    returns (elements': seq<Element>, current': seq<string>)
    ensures Acc(elements', current') == Step(Acc(elements, current), line)
  {
    elements', current' := elements, current;
    if IsPrefix("# ", line) || IsPrefix("## ", line) || IsPrefix("### ", line) || IsPrefix("- ", line)
       || TrimWith(line, IsJsSpace) == "---" || TrimWith(line, IsJsSpace) == ""
    {
      if |current'| > 0 {
        elements' := elements' + [Paragraph(current')];
        current' := [];
      }
      if IsPrefix("# ", line) {
        assert KindOf(line) == Header(1);
        elements' := elements' + [Heading(1, line[2..])];
      } else if IsPrefix("## ", line) {
        assert KindOf(line) == Header(2);
        elements' := elements' + [Heading(2, line[3..])];
      } else if IsPrefix("### ", line) {
        assert KindOf(line) == Header(3);
        elements' := elements' + [Heading(3, line[4..])];
      } else if IsPrefix("- ", line) {
        assert KindOf(line) == ListLine;
        elements' := elements' + [Item(line[2..])];
      } else if TrimWith(line, IsJsSpace) == "---" {
        assert KindOf(line) == RuleLine;
        elements' := elements' + [Rule];
      } else {
        assert KindOf(line) == BlankLine;
      }
    } else if TrimWith(line, IsJsSpace) != "" {
      assert KindOf(line) == TextLine;
      current' := current' + [line];
    }
  }

  /** `renderContent`. */
  method RenderContent(text: string) returns (elements: seq<Element>)
    ensures elements == Render(Split(text, '\n'))
  {
    elements := RenderLines(Split(text, '\n'));
  }

  /** The `forEach` over the lines and the final flush. */
  method RenderLines(lines: seq<string>) returns (elements: seq<Element>)
    ensures elements == Render(lines)
  {
    elements := [];
    var current: seq<string> := [];
    var n := 0;
    while n < |lines|
      invariant n <= |lines|
      invariant Acc(elements, current) == Fold(lines[..n])
    {
      assert lines[..n + 1][..n] == lines[..n];
      assert Fold(lines[..n + 1]) == Step(Fold(lines[..n]), lines[n]);
      elements, current := RenderLine(elements, current, lines[n]);
      n := n + 1;
    }
    assert lines[..n] == lines;
    ghost var last := Acc(elements, current);
    assert last == Fold(lines);
    if |current| > 0 {
      elements := elements + [Paragraph(current)];
    }
    assert elements == Flush(last).elements;
  }

  // ---------------------------------------------------------------------
  // What the renderer keeps
  // ---------------------------------------------------------------------

  /** The buffered lines of every paragraph, in element order. */
  function ParagraphLines(elements: seq<Element>): seq<string>
  {
    if elements == [] then []
    else
      var last := elements[|elements| - 1];
      ParagraphLines(elements[..|elements| - 1]) + (if last.Paragraph? then last.lines else [])
  }

  lemma ParagraphLinesAppend(elements: seq<Element>, e: Element)
    ensures ParagraphLines(elements + [e]) == ParagraphLines(elements) + (if e.Paragraph? then e.lines else [])
  {
    assert (elements + [e])[..|elements|] == elements;
  }

  /** The elements other than paragraphs, in order. */
  function Blocks(elements: seq<Element>): seq<Element>
  {
    if elements == [] then []
    else
      var last := elements[|elements| - 1];
      Blocks(elements[..|elements| - 1]) + (if last.Paragraph? then [] else [last])
  }

  lemma BlocksAppend(elements: seq<Element>, e: Element)
    ensures Blocks(elements + [e]) == Blocks(elements) + (if e.Paragraph? then [] else [e])
  {
    assert (elements + [e])[..|elements|] == elements;
  }

  /** The element each header, list or rule line yields, in line order. */
  function StructuralLines(lines: seq<string>): seq<Element>
  {
    if lines == [] then []
    else
      var s := Structural(lines[|lines| - 1]);
      StructuralLines(lines[..|lines| - 1]) + (if s.Some? then [s.value] else [])
  }

  /** Paragraphs are never empty and hold only text lines. */
  ghost predicate WellFormedParagraphs(elements: seq<Element>)
  {
    forall e :: e in elements && e.Paragraph? ==> |e.lines| > 0 && forall l :: l in e.lines ==> IsTextLine(l)
  }

  /** One line adds itself to the paragraph text when it is a text line,
      and nothing otherwise. */
  lemma StepKeepsText(acc: Acc, line: string)
    ensures ParagraphLines(Step(acc, line).elements) + Step(acc, line).buffer
            == ParagraphLines(acc.elements) + acc.buffer + (if IsTextLine(line) then [line] else [])
  {
    var next := Step(acc, line);
    if IsTextLine(line) {
      assert next == Acc(acc.elements, acc.buffer + [line]);
      AppendAssoc(ParagraphLines(acc.elements), acc.buffer, [line]);
    } else {
      AppendNil(ParagraphLines(acc.elements) + acc.buffer);
      var f := Flush(acc);
      assert ParagraphLines(f.elements) + f.buffer == ParagraphLines(acc.elements) + acc.buffer by {
        if |acc.buffer| > 0 {
          ParagraphLinesAppend(acc.elements, Paragraph(acc.buffer));
        } else {
          assert acc.buffer == [];
        }
      }
      var s := Structural(line);
      if s.Some? {
        assert next == Acc(f.elements + [s.value], []);
        ParagraphLinesAppend(f.elements, s.value);
        assert ParagraphLines(next.elements) == ParagraphLines(f.elements);
      } else {
        assert next == f;
      }
      assert ParagraphLines(next.elements) + next.buffer == ParagraphLines(f.elements) + f.buffer;
    }
  }

  /** Text lines so far = paragraph lines + buffer. */
  lemma {:induction false} FoldKeepsText(lines: seq<string>)
    ensures ParagraphLines(Fold(lines).elements) + Fold(lines).buffer == Filter(lines, IsTextLine)
  {
    if lines != [] {
      var init := lines[..|lines| - 1];
      var line := lines[|lines| - 1];
      var acc := Fold(init);
      var kept := if IsTextLine(line) then [line] else [];
      assert ParagraphLines(acc.elements) + acc.buffer == Filter(init, IsTextLine) by {
        FoldKeepsText(init);
      }
      assert Fold(lines) == Step(acc, line);
      StepKeepsText(acc, line);
      assert Filter(lines, IsTextLine) == Filter(init, IsTextLine) + kept by {
        FilterLast(lines, IsTextLine);
      }
    }
  }

  /** Elements other than paragraphs = one per header, list or rule line. */
  lemma {:induction false} FoldKeepsBlocks(lines: seq<string>)
    ensures Blocks(Fold(lines).elements) == StructuralLines(lines)
  {
    if lines != [] {
      var init := lines[..|lines| - 1];
      var line := lines[|lines| - 1];
      FoldKeepsBlocks(init);
      var acc := Fold(init);
      if !IsTextLine(line) {
        var f := Flush(acc);
        if |acc.buffer| > 0 {
          BlocksAppend(acc.elements, Paragraph(acc.buffer));
        }
        assert Blocks(f.elements) == Blocks(acc.elements);
        var s := Structural(line);
        if s.Some? {
          BlocksAppend(f.elements, s.value);
        }
      } else {
        assert Structural(line) == None;
      }
    }
  }

  /** Paragraphs are well formed and the buffer holds only text lines. */
  lemma {:induction false} FoldKeepsParagraphs(lines: seq<string>)
    ensures WellFormedParagraphs(Fold(lines).elements)
    ensures forall l :: l in Fold(lines).buffer ==> IsTextLine(l)
  {
    if lines != [] {
      FoldKeepsParagraphs(lines[..|lines| - 1]);
      StepKeepsParagraphs(Fold(lines[..|lines| - 1]), lines[|lines| - 1]);
    }
  }

  /** One line keeps the paragraphs well formed and the buffer text only. */
  lemma StepKeepsParagraphs(acc: Acc, line: string)
    requires WellFormedParagraphs(acc.elements)
    requires forall l :: l in acc.buffer ==> IsTextLine(l)
    ensures WellFormedParagraphs(Step(acc, line).elements)
    ensures forall l :: l in Step(acc, line).buffer ==> IsTextLine(l)
  {
  }

  /** No text line is lost: the paragraphs hold exactly the text lines, in
      order; every header, list and rule line yields exactly its own element,
      in order; and no paragraph is empty. */
  lemma RenderKeepsEverything(lines: seq<string>)
    ensures ParagraphLines(Render(lines)) == Filter(lines, IsTextLine)
    ensures Blocks(Render(lines)) == StructuralLines(lines)
    ensures WellFormedParagraphs(Render(lines))
  {
    FoldKeepsText(lines);
    FoldKeepsBlocks(lines);
    FoldKeepsParagraphs(lines);
    var acc := Fold(lines);
    if |acc.buffer| > 0 {
      ParagraphLinesAppend(acc.elements, Paragraph(acc.buffer));
      BlocksAppend(acc.elements, Paragraph(acc.buffer));
    } else {
      assert acc.buffer == [];
      assert ParagraphLines(acc.elements) + [] == ParagraphLines(acc.elements);
    }
  }

  /** A text with no blank, header, list or rule line renders as at most one
      paragraph holding all its lines. */
  lemma PlainTextIsOneParagraph(lines: seq<string>)
    requires |lines| > 0
    requires forall i :: 0 <= i < |lines| ==> IsTextLine(lines[i])
    ensures Render(lines) == [Paragraph(lines)]
  {
    AllTextFold(lines);
  }

  lemma {:induction false} AllTextFold(lines: seq<string>)
    requires forall i :: 0 <= i < |lines| ==> IsTextLine(lines[i])
    ensures Fold(lines) == Acc([], lines)
  {
    if lines != [] {
      var init, last := lines[..|lines| - 1], lines[|lines| - 1];
      assert Fold(init) == Acc([], init) by {
        AllTextFold(init);
      }
      assert IsTextLine(last);
      assert Fold(lines) == Step(Fold(init), last);
      SplitLast(lines);
    }
  }

  /** The elements a header, list or rule line adds on its own. */
  function OwnElement(line: string): (e: seq<Element>)
    ensures |e| <= 1
    ensures IsTextLine(line) ==> e == []
  {
    var s := Structural(line);
    if s.Some? then [s.value] else []
  }

  /** `acc` with `prefix` in front of its elements. */
  function After(prefix: seq<Element>, acc: Acc): Acc
  {
    Acc(prefix + acc.elements, acc.buffer)
  }

  /** Elements already emitted take no part in a step. */
  lemma StepAfter(prefix: seq<Element>, acc: Acc, line: string)
    ensures Step(After(prefix, acc), line) == After(prefix, Step(acc, line))
    ensures Flush(After(prefix, acc)) == After(prefix, Flush(acc))
  {
    if |acc.buffer| > 0 {
      AppendAssoc(prefix, acc.elements, [Paragraph(acc.buffer)]);
    }
    if !IsTextLine(line) {
      var f := Flush(acc);
      var s := Structural(line);
      if s.Some? {
        AppendAssoc(prefix, f.elements, [s.value]);
      }
    }
  }

  /** A non-text line closes the pending paragraph: the lines after it fold
      as if from the start, behind what was emitted up to and including it. */
  lemma {:induction false} FoldAfterBreak(before: seq<string>, line: string, after: seq<string>)
    requires !IsTextLine(line)
    ensures Fold(before + [line] + after) == After(Render(before) + OwnElement(line), Fold(after))
  {
    if after == [] {
      assert before + [line] + after == before + [line];
      FoldAtBreak(before, line);
    } else {
      var init, last := after[..|after| - 1], after[|after| - 1];
      FoldAfterBreak(before, line, init);
      SplitLast(after);
      AppendAssoc(before + [line], init, [last]);
      FoldStepAfter(before + [line] + init, Render(before) + OwnElement(line), init, last);
    }
  }

  /** One more line keeps a fold equal to another shifted behind `head`. */
  lemma FoldStepAfter(lines: seq<string>, head: seq<Element>, tail: seq<string>, line: string)
    requires Fold(lines) == After(head, Fold(tail))
    ensures Fold(lines + [line]) == After(head, Fold(tail + [line]))
  {
    assert (lines + [line])[..|lines|] == lines;
    assert (tail + [line])[..|tail|] == tail;
    StepAfter(head, Fold(tail), line);
  }

  /** Just after a non-text line nothing is buffered. */
  lemma FoldAtBreak(before: seq<string>, line: string)
    requires !IsTextLine(line)
    ensures Fold(before + [line]) == After(Render(before) + OwnElement(line), Acc([], []))
  {
    assert (before + [line])[..|before|] == before;
    assert Fold(before + [line]) == Step(Fold(before), line);
    AppendNil(Render(before) + OwnElement(line));
    assert Flush(Fold(before)).buffer == [];
  }

  /** Before every header, list, rule or blank line the pending paragraph is
      emitted: the output is what the lines before it render to, then the
      line's own element, then what the lines after it render to. */
  lemma RenderSplitsAtBreak(before: seq<string>, line: string, after: seq<string>)
    requires !IsTextLine(line)
    ensures Render(before + [line] + after) == Render(before) + OwnElement(line) + Render(after)
  {
    FoldAfterBreak(before, line, after);
    StepAfter(Render(before) + OwnElement(line), Fold(after), line);
    AppendAssoc(Render(before), OwnElement(line), Render(after));
  }

  /** A run of text lines between two non-text lines becomes exactly one
      paragraph, between the two lines' own elements. */
  lemma RunBetweenBreaksIsOneParagraph(before: seq<string>, open: string, run: seq<string>,
                                       close: string, after: seq<string>)
    requires !IsTextLine(open) && !IsTextLine(close)
    requires |run| > 0
    requires forall i :: 0 <= i < |run| ==> IsTextLine(run[i])
    ensures Render(before + [open] + run + [close] + after)
            == Render(before) + OwnElement(open) + [Paragraph(run)] + OwnElement(close) + Render(after)
  {
    var tail := run + [close] + after;
    assert before + [open] + run + [close] + after == before + [open] + tail;
    RenderSplitsAtBreak(before, open, tail);
    RenderSplitsAtBreak(run, close, after);
    PlainTextIsOneParagraph(run);
    var r := Render(before) + OwnElement(open);
    AppendAssoc(r, [Paragraph(run)] + OwnElement(close), Render(after));
    AppendAssoc(r, [Paragraph(run)], OwnElement(close));
  }

  // ---------------------------------------------------------------------
  // formatText
  // ---------------------------------------------------------------------

  /** The characters JavaScript's `.` does not match. */
  predicate IsLineTerminator(c: char)
  {
    c == '\n' || c == '\r' || c == '\U{2028}' || c == '\U{2029}'
  }

  /** Where the lazy `(.*?)` of a delimited match ends: the first position
      of `delim` in `t` with no line terminator before it. */
  function CloseAt(t: string, delim: string): (k: Option<nat>)
    ensures k.Some? ==> OccursAt(t, delim, k.value)
  {
    if IsPrefix(delim, t) then Some(0)
    else if t == [] || IsLineTerminator(t[0]) then None
    else
      var k := CloseAt(t[1..], delim);
      if k.Some? then
        Some(k.value + 1)
      else None
  }

  /** No line terminator comes before the closing delimiter found. */
  lemma {:induction false} CloseAtSameLine(t: string, delim: string)
    requires CloseAt(t, delim).Some?
    ensures forall j :: 0 <= j < CloseAt(t, delim).value ==> !IsLineTerminator(t[j])
    decreases |t|
  {
    if !IsPrefix(delim, t) {
      CloseAtSameLine(t[1..], delim);
      assert forall j :: 1 <= j < CloseAt(t, delim).value ==> t[j] == t[1..][j - 1];
    }
  }

  /** The closing delimiter found is the first one. */
  lemma {:induction false} CloseAtFirst(t: string, delim: string)
    requires CloseAt(t, delim).Some?
    ensures forall j :: 0 <= j < CloseAt(t, delim).value ==> !OccursAt(t, delim, j)
    decreases |t|
  {
    if !IsPrefix(delim, t) {
      var k := CloseAt(t[1..], delim).value;
      CloseAtFirst(t[1..], delim);
      assert forall j :: 1 <= j <= k ==> (OccursAt(t, delim, j) <==> OccursAt(t[1..], delim, j - 1));
    }
  }

  /** A global `replace` of `delim(.*?)delim` by `open$1close`: matches are
      tried left to right, and after a match the scan resumes behind it. */
  function ReplaceDelimited(s: string, delim: string, open: string, close: string): string
    requires |delim| > 0
    decreases |s|
  {
    if s == [] then []
    else if IsPrefix(delim, s) && CloseAt(s[|delim|..], delim).Some? then
      var k := CloseAt(s[|delim|..], delim).value;
      open + s[|delim|..|delim| + k] + close + ReplaceDelimited(s[|delim| + k + |delim|..], delim, open, close)
    else [s[0]] + ReplaceDelimited(s[1..], delim, open, close)
  }

  const StrongOpen := "<strong class=\"text-white font-bold\">"
  const StrongClose := "</strong>"
  const EmOpen := "<em class=\"text-blue-300\">"
  const EmClose := "</em>"

  /** `formatText`: bold first, then italic. */
  function FormatText(text: string): string
  {
    ReplaceDelimited(ReplaceDelimited(text, "**", StrongOpen, StrongClose), "*", EmOpen, EmClose)
  }

  function ItemHtml(e: Element): string
    requires e.Item?
  {
    FormatText(e.text)
  }

  function ParagraphHtml(e: Element): string
    requires e.Paragraph? && |e.lines| > 0
  {
    FormatText(Join(e.lines, " "))
  }

  predicate Plain(x: string)
  {
    forall i :: 0 <= i < |x| ==> x[i] != '*' && !IsLineTerminator(x[i])
  }

  /** Text without the delimiter's first character is left alone. */
  lemma {:induction false} ReplaceNoDelimiter(s: string, delim: string, open: string, close: string)
    requires |delim| > 0
    requires forall i :: 0 <= i < |s| ==> s[i] != delim[0]
    ensures ReplaceDelimited(s, delim, open, close) == s
    decreases |s|
  {
    if s != [] {
      assert !IsPrefix(delim, s) by { assert s[0] != delim[0]; }
      ReplaceNoDelimiter(s[1..], delim, open, close);
      assert ReplaceDelimited(s, delim, open, close) == [s[0]] + ReplaceDelimited(s[1..], delim, open, close);
      assert [s[0]] + s[1..] == s;
    }
  }

  lemma {:induction false} CloseAfterPlain(x: string, delim: string, rest: string)
    requires |delim| > 0 && delim[0] == '*'
    requires Plain(x)
    ensures CloseAt(x + delim + rest, delim) == Some(|x|)
  {
    var t := x + delim + rest;
    if x != [] {
      assert t[0] == x[0];
      assert !IsPrefix(delim, t) && !IsLineTerminator(t[0]);
      assert CloseAt(t[1..], delim) == Some(|x| - 1) by {
        assert Plain(x[1..]);
        CloseAfterPlain(x[1..], delim, rest);
        assert t[1..] == x[1..] + delim + rest;
      }
    } else {
      assert t[..|delim|] == delim;
    }
  }

  /** The lazy match: a delimiter, plain text and the next delimiter become
      one tagged span, and the scan goes on behind it. */
  lemma ShortestMatch(x: string, rest: string, delim: string, open: string, close: string)
    requires |delim| > 0 && delim[0] == '*'
    requires Plain(x)
    ensures ReplaceDelimited(delim + x + delim + rest, delim, open, close)
            == open + x + close + ReplaceDelimited(rest, delim, open, close)
  {
    SpanStep(x, delim, rest, open, close);
    ReplaceSpan(delim + x + delim + rest, delim, open, close, x, rest);
  }

  /** The scan's step at `d x d rest`, with the span's text and what follows
      it as slices. */
  lemma SpanStep(x: string, delim: string, rest: string, open: string, close: string)
    requires |delim| > 0 && delim[0] == '*'
    requires Plain(x)
    ensures var s := delim + x + delim + rest;
            && |delim| + |x| + |delim| <= |s|
            && ReplaceDelimited(s, delim, open, close)
               == open + s[|delim|..|delim| + |x|] + close + ReplaceDelimited(s[|delim| + |x| + |delim|..], delim, open, close)
            && s[|delim|..|delim| + |x|] == x && s[|delim| + |x| + |delim|..] == rest
  {
    MatchAtFront(x, delim, rest);
    UnfoldAtMatch(delim + x + delim + rest, delim, open, close, |x|);
  }

  /** `d x d rest` opens with the delimiter, and the closing one is found
      right after `x`. */
  lemma MatchAtFront(x: string, delim: string, rest: string)
    requires |delim| > 0 && delim[0] == '*'
    requires Plain(x)
    ensures var s := delim + x + delim + rest;
            && IsPrefix(delim, s) && CloseAt(s[|delim|..], delim) == Some(|x|)
            && |delim| + |x| + |delim| <= |s|
            && s[|delim|..|delim| + |x|] == x && s[|delim| + |x| + |delim|..] == rest
  {
    SpanSlices(delim, x, rest);
    CloseAfterPlain(x, delim, rest);
  }

  /** The step of the scan at a delimiter whose closing one is `k`
      characters on. */
  lemma UnfoldAtMatch(s: string, delim: string, open: string, close: string, k: nat)
    requires |delim| > 0 && IsPrefix(delim, s) && CloseAt(s[|delim|..], delim) == Some(k)
    ensures ReplaceDelimited(s, delim, open, close)
            == open + s[|delim|..|delim| + k] + close + ReplaceDelimited(s[|delim| + k + |delim|..], delim, open, close)
  {
    var t := s[|delim|..];
    assert OccursAt(t, delim, k);
    assert |delim| + k + |delim| <= |s|;
    assert s != [] && CloseAt(t, delim).Some? && CloseAt(t, delim).value == k;
  }

  /** Once the scan's step at `s` is known, the span's text and what follows
      it can be named. */
  lemma ReplaceSpan(s: string, delim: string, open: string, close: string, x: string, rest: string)
    requires |delim| > 0 && |delim| + |x| + |delim| <= |s|
    requires ReplaceDelimited(s, delim, open, close)
             == open + s[|delim|..|delim| + |x|] + close + ReplaceDelimited(s[|delim| + |x| + |delim|..], delim, open, close)
    requires s[|delim|..|delim| + |x|] == x && s[|delim| + |x| + |delim|..] == rest
    ensures ReplaceDelimited(s, delim, open, close) == open + x + close + ReplaceDelimited(rest, delim, open, close)
  {
  }

  /** The pieces of `d x d rest`. */
  lemma SpanSlices(d: string, x: string, rest: string)
    ensures var s := d + x + d + rest;
            && IsPrefix(d, s)
            && s[|d|..] == x + d + rest
            && s[|d|..|d| + |x|] == x
            && s[|d| + |x| + |d|..] == rest
  {
    var s := d + x + d + rest;
    assert s[..|d|] == d;
  }

  lemma NoStars(s: string)
    requires forall i :: 0 <= i < |s| ==> s[i] != '*'
    ensures FormatText(s) == s
  {
    ReplaceNoDelimiter(s, "**", StrongOpen, StrongClose);
    ReplaceNoDelimiter(s, "*", EmOpen, EmClose);
  }

  /** `**x**` becomes bold, and the italic pass does not touch the result. */
  lemma BoldSpan(x: string)
    requires Plain(x)
    ensures FormatText("**" + x + "**") == StrongOpen + x + StrongClose
  {
    LoneSpan(x, "**", StrongOpen, StrongClose);
    var s := StrongOpen + x + StrongClose;
    assert StarFree(s) by {
      StrongTagsStarFree();
      StarFreeJoin(StrongOpen, x, StrongClose);
    }
    ReplaceNoDelimiter(s, "*", EmOpen, EmClose);
  }

  predicate StarFree(s: string)
  {
    forall i :: 0 <= i < |s| ==> s[i] != '*'
  }

  lemma StrongTagsStarFree()
    ensures StarFree(StrongOpen) && StarFree(StrongClose)
  {
  }

  lemma StarFreeJoin(a: string, b: string, c: string)
    requires StarFree(a) && Plain(b) && StarFree(c)
    ensures StarFree(a + b + c)
  {
    var s := a + b + c;
    forall i | 0 <= i < |s| ensures s[i] != '*' {
      if i < |a| {
        assert s[i] == a[i];
      } else if i < |a| + |b| {
        assert s[i] == b[i - |a|];
      } else {
        assert s[i] == c[i - |a| - |b|];
      }
    }
  }

  /** Two bold spans on one line stay two spans: the match is the shortest. */
  lemma TwoBoldSpans(x: string, y: string, z: string)
    requires Plain(x) && Plain(z)
    requires forall i :: 0 <= i < |y| ==> y[i] != '*'
    ensures ReplaceDelimited("**" + x + "**" + y + "**" + z + "**", "**", StrongOpen, StrongClose)
            == StrongOpen + x + StrongClose + y + StrongOpen + z + StrongClose
  {
    TwoSpans(x, y, z, "**", StrongOpen, StrongClose);
  }

  lemma TwoSpans(x: string, y: string, z: string, delim: string, open: string, close: string)
    requires |delim| > 0 && delim[0] == '*'
    requires Plain(x) && Plain(z)
    requires forall i :: 0 <= i < |y| ==> y[i] != '*'
    ensures ReplaceDelimited(delim + x + delim + y + delim + z + delim, delim, open, close)
            == open + x + close + y + open + z + close
  {
    var second := delim + z + delim;
    var tail := y + second;
    SplitAfterFirst(delim, x, y, z);
    ShortestMatch(x, tail, delim, open, close);
    PlainPrefixCopied(y, second, delim, open, close);
    LoneSpan(z, delim, open, close);
    JoinSpans(open, x, close, y, z);
  }

  /** `d x d y d z d` read as the first span and the rest. */
  lemma SplitAfterFirst(d: string, x: string, y: string, z: string)
    ensures d + x + d + y + d + z + d == d + x + d + (y + (d + z + d))
  {
  }

  /** The two spans and the text between them, joined. */
  lemma JoinSpans(o: string, x: string, c: string, y: string, z: string)
    ensures o + x + c + (y + (o + z + c)) == o + x + c + y + o + z + c
  {
  }

  lemma LoneSpan(x: string, delim: string, open: string, close: string)
    requires |delim| > 0 && delim[0] == '*'
    requires Plain(x)
    ensures ReplaceDelimited(delim + x + delim, delim, open, close) == open + x + close
  {
    ShortestMatch(x, [], delim, open, close);
    assert delim + x + delim + [] == delim + x + delim;
    assert open + x + close + [] == open + x + close;
  }

  lemma {:induction false} PlainPrefixCopied(y: string, rest: string, delim: string, open: string, close: string)
    requires |delim| > 0 && delim[0] == '*'
    requires forall i :: 0 <= i < |y| ==> y[i] != '*'
    ensures ReplaceDelimited(y + rest, delim, open, close) == y + ReplaceDelimited(rest, delim, open, close)
    decreases |y|
  {
    if y != [] {
      var s := y + rest;
      assert s[0] == y[0] != '*';
      assert !IsPrefix(delim, s);
      assert s[1..] == y[1..] + rest;
      assert ReplaceDelimited(s, delim, open, close) == [y[0]] + ReplaceDelimited(y[1..] + rest, delim, open, close);
      PlainPrefixCopied(y[1..], rest, delim, open, close);
      assert [y[0]] + (y[1..] + ReplaceDelimited(rest, delim, open, close)) == y + ReplaceDelimited(rest, delim, open, close) by {
        assert [y[0]] + y[1..] == y;
      }
    } else {
      assert y + rest == rest;
    }
  }
}
