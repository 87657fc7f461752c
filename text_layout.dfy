/**
 * The greedy word-wrap of `Game::renderText` (src/main.cpp and, identically,
 * src/main_broken.cpp).
 *
 * The text is cut into paragraphs at '\n' the way `std::getline` does, each
 * paragraph into words the way `operator>>` on a `std::istringstream` does,
 * and the words are packed into an accumulator line while the measured
 * candidate is no wider than the line width. Every emitted line is drawn at
 * the running vertical offset, which then advances by a measured height plus
 * a gap of 10 pixels.
 *
 * `TTF_SizeText` is the parameter `measure`, about which nothing is assumed.
 */
module TextLayout {
  import opened Wrappers

  /** What `TTF_SizeText` reports for a string, in pixels. */
  datatype Size = Size(width: int, height: int)

  /** The font's text measurement. */
  type Measure = string -> Size

  /** One call of `renderTextLine`: a line of text drawn at (x, y). */
  datatype Placed = Placed(text: string, x: int, y: int)

  /** Pixels added below every emitted line. */
  const LineGap: int := 10

  /** The characters `isspace` accepts in the "C" locale. */
  predicate IsSpace(c: char) {
    c == ' ' || c == '\t' || c == '\n' || c == '\r' || c == '\U{000B}' || c == '\U{000C}'
  }

  predicate AllSpaces(s: string) {
    forall i :: 0 <= i < |s| ==> IsSpace(s[i])
  }

  /** A word as `operator>>` extracts it: non-empty, with no whitespace. */
  predicate IsWord(w: string) {
    w != [] && forall i :: 0 <= i < |w| ==> !IsSpace(w[i])
  }

  // ---------------------------------------------------------------------
  // Paragraphs: std::getline

  /**
   * `std::getline`: the characters up to the next '\n', which is consumed
   * but not returned, and what is left of the stream.
   */
  function GetLine(s: string): (r: (string, string))
    ensures |r.0| + |r.1| <= |s|
    ensures s != [] ==> |r.1| < |s|
  {
    if s == [] then ([], [])
    else if s[0] == '\n' then ([], s[1..])
    else var t := GetLine(s[1..]); ([s[0]] + t.0, t.1)
  }

  /** The line holds no '\n', and the stream was the line, then '\n' or its end. */
  lemma {:induction false} GetLineShape(s: string)
    ensures '\n' !in GetLine(s).0
    ensures s == GetLine(s).0 + "\n" + GetLine(s).1 || (s == GetLine(s).0 && GetLine(s).1 == [])
    decreases |s|
  {
    if s != [] && s[0] != '\n' {
      GetLineShape(s[1..]);
      var t := GetLine(s[1..]);
      assert s == [s[0]] + s[1..];
    }
  }

  /** The lines `std::getline` reads from a stream holding `s`, in order. */
  function Paragraphs(s: string): seq<string>
    decreases |s|
  {
    if s == [] then [] else [GetLine(s).0] + Paragraphs(GetLine(s).1)
  }

  /** A line without '\n' followed by '\n' is read whole, and the '\n' is consumed. */
  lemma {:induction false} GetLineBeforeNewline(a: string, u: string)
    requires '\n' !in a
    ensures GetLine(a + "\n" + u) == (a, u)
    decreases |a|
  {
    if a == [] {
      assert a + "\n" + u == ['\n'] + u;
    } else {
      assert (a + "\n" + u)[1..] == a[1..] + "\n" + u;
      assert (a + "\n" + u)[0] == a[0];
      GetLineBeforeNewline(a[1..], u);
      assert [a[0]] + a[1..] == a;
    }
  }

  /** A stream without '\n' is read as one line. */
  lemma {:induction false} GetLineWhole(a: string)
    requires '\n' !in a
    ensures GetLine(a) == (a, [])
    ensures a != [] ==> Paragraphs(a) == [a]
    decreases |a|
  {
    if a != [] {
      GetLineWhole(a[1..]);
      assert [a[0]] + a[1..] == a;
    }
  }

  /** Text appended after the first '\n' stays in the rest of the stream. */
  lemma {:induction false} GetLineAppend(t: string, u: string)
    requires '\n' in t
    ensures GetLine(t + u) == (GetLine(t).0, GetLine(t).1 + u)
    decreases |t|
  {
    assert (t + u)[0] == t[0];
    if t[0] != '\n' {
      assert (t + u)[1..] == t[1..] + u;
      assert '\n' in t[1..] by {
        var k :| 0 <= k < |t| && t[k] == '\n';
        assert t[1..][k - 1] == '\n';
      }
      GetLineAppend(t[1..], u);
    } else {
      assert (t + u)[1..] == t[1..] + u;
    }
  }

  /** Two lines without '\n', joined by one, are read as those two paragraphs. */
  lemma ParagraphsTwoLines(t: string, b: string)
    requires t != [] && '\n' !in t
    requires b != [] && '\n' !in b
    ensures Paragraphs(t + "\n" + b) == Paragraphs(t) + [b]
  {
    GetLineWhole(b);
    GetLineBeforeNewline(t, b);
    GetLineWhole(t);
  }

  /**
   * A line added after a final '\n' becomes one more paragraph, so long as
   * the text before it does not already end in '\n'.
   */
  lemma {:induction false} ParagraphsSnoc(t: string, b: string)
    requires t != [] && t[|t| - 1] != '\n'
    requires b != [] && '\n' !in b
    ensures Paragraphs(t + "\n" + b) == Paragraphs(t) + [b]
    decreases |t|
  {
    if '\n' !in t {
      ParagraphsTwoLines(t, b);
    } else {
      var (l, r) := GetLine(t);
      assert t == l + "\n" + r by {
        GetLineShape(t);
      }
      assert r != [] && r[|r| - 1] == t[|t| - 1];
      assert GetLine(t + "\n" + b) == (l, r + "\n" + b) by {
        GetLineAppend(t, "\n" + b);
        assert t + "\n" + b == t + ("\n" + b);
        assert r + ("\n" + b) == r + "\n" + b;
      }
      ParagraphsSnoc(r, b);
      assert Paragraphs(t + "\n" + b) == [l] + Paragraphs(r + "\n" + b);
    }
  }

  // ---------------------------------------------------------------------
  // Words: operator>> into a std::string

  /** The longest whitespace-free prefix of `s`, and what follows it. */
  function TakeWord(s: string): (r: (string, string))
    ensures |r.0| + |r.1| == |s|
  {
    if s == [] || IsSpace(s[0]) then ([], s)
    else var t := TakeWord(s[1..]); ([s[0]] + t.0, t.1)
  }

  /**
   * One `stream >> word`: leading whitespace is skipped and the longest run
   * of non-whitespace characters is taken. The extraction fails (None) when
   * nothing but whitespace is left.
   */
  function NextWord(s: string): (r: Option<(string, string)>)
    ensures r.Some? ==> |r.value.1| < |s|
  {
    if s == [] then None
    else if IsSpace(s[0]) then NextWord(s[1..])
    else Some(TakeWord(s))
  }

  /** The words of `acc`, which is empty or one word. */
  function Flush(acc: string): seq<string> {
    if acc == [] then [] else [acc]
  }

  /**
   * Repeated `>>` read one character at a time: `acc` is the word being
   * read, and whitespace ends it.
   */
  function Scan(s: string, acc: string): seq<string>
    decreases |s|
  {
    if s == [] then Flush(acc)
    else if IsSpace(s[0]) then Flush(acc) + Scan(s[1..], [])
    else Scan(s[1..], acc + [s[0]])
  }

  /** The words `operator>>` extracts from a stream holding `s`, in order. */
  function Words(s: string): seq<string> {
    Scan(s, [])
  }

  /** Reading on through a word finishes it at the next whitespace. */
  lemma {:induction false} ScanTakeWord(s: string, acc: string)
    ensures Scan(s, acc) == Flush(acc + TakeWord(s).0) + Scan(TakeWord(s).1, [])
    decreases |s|
  {
    if s == [] {
      assert acc + [] == acc;
    } else if IsSpace(s[0]) {
      assert acc + [] == acc;
    } else {
      ScanTakeWord(s[1..], acc + [s[0]]);
      assert acc + [s[0]] + TakeWord(s[1..]).0 == acc + TakeWord(s).0;
    }
  }

  /** A word taken by TakeWord from a non-space start is a word. */
  lemma {:induction false} TakeWordIsWord(s: string)
    requires s != [] && !IsSpace(s[0])
    ensures IsWord(TakeWord(s).0)
    ensures TakeWord(s).1 == [] || IsSpace(TakeWord(s).1[0])
    decreases |s|
  {
    var t := TakeWord(s[1..]);
    if s[1..] != [] && !IsSpace(s[1..][0]) {
      TakeWordIsWord(s[1..]);
    }
    assert TakeWord(s).0 == [s[0]] + t.0;
    forall i | 0 <= i < |TakeWord(s).0| ensures !IsSpace(TakeWord(s).0[i]) {
      if i > 0 { assert TakeWord(s).0[i] == t.0[i - 1]; }
    }
  }

  /**
   * What one `>>` does to the words still in the stream: it fails exactly
   * when none are left, and otherwise it takes the first of them.
   */
  lemma {:induction false} NextWordTakesFirst(s: string)
    ensures NextWord(s).None? <==> Words(s) == []
    ensures NextWord(s).Some? ==>
              && IsWord(NextWord(s).value.0)
              && Words(s) == [NextWord(s).value.0] + Words(NextWord(s).value.1)
    decreases |s|
  {
    if s != [] {
      if IsSpace(s[0]) {
        NextWordTakesFirst(s[1..]);
        assert Words(s) == Words(s[1..]);
      } else {
        TakeWordIsWord(s);
        ScanTakeWord(s, []);
        assert [] + TakeWord(s).0 == TakeWord(s).0;
      }
    }
  }

  /** The words of a sequence of paragraphs, in order. */
  function ParagraphWords(paras: seq<string>): seq<string> {
    if paras == [] then [] else Words(paras[0]) + ParagraphWords(paras[1..])
  }

  /** The words of the drawn lines, in order. */
  function LineWords(lines: seq<Placed>): seq<string> {
    if lines == [] then [] else Words(lines[0].text) + LineWords(lines[1..])
  }

  // ---------------------------------------------------------------------
  // The greedy line-filling, as functions

  /** `currentLine + (currentLine.empty() ? "" : " ") + word`. */
  function Candidate(current: string, word: string): string {
    current + (if current == [] then "" else " ") + word
  }

  /** Lines emitted so far, the accumulator, and the vertical offset. */
  datatype Partial = Partial(lines: seq<Placed>, current: string, bottom: int)

  /** Lines emitted and the vertical offset after them. */
  datatype Block = Block(lines: seq<Placed>, bottom: int)

  /**
   * The inner `while (wordStream >> word)` loop fed with `words`, starting
   * from accumulator `current` at offset `yOffset`. On overflow the
   * accumulator is emitted (even when empty) and the offset advances by the
   * height of the rejected candidate.
   */
  function Fill(words: seq<string>, current: string, x: int, yOffset: int,
                width: int, measure: Measure): Partial
    decreases |words|
  {
    if words == [] then Partial([], current, yOffset)
    else
      var test := Candidate(current, words[0]);
      var size := measure(test);
      if size.width > width then
        var rest := Fill(words[1..], words[0], x, yOffset + size.height + LineGap, width, measure);
        Partial([Placed(current, x, yOffset)] + rest.lines, rest.current, rest.bottom)
      else
        Fill(words[1..], test, x, yOffset, width, measure)
  }

  /** One paragraph: fill its words, then emit a non-empty accumulator. */
  function WrapParagraph(line: string, x: int, yOffset: int, width: int, measure: Measure): Block {
    Close(Fill(Words(line), "", x, yOffset, width, measure), x, measure)
  }

  /** `if (!currentLine.empty())`: draw the accumulator and advance by its height. */
  function Close(p: Partial, x: int, measure: Measure): Block {
    if p.current != [] then
      Block(p.lines + [Placed(p.current, x, p.bottom)], p.bottom + measure(p.current).height + LineGap)
    else
      Block(p.lines, p.bottom)
  }

  /** The paragraphs one after another, the offset carried along. */
  function WrapParagraphs(paras: seq<string>, x: int, yOffset: int, width: int, measure: Measure): Block
    decreases |paras|
  {
    if paras == [] then Block([], yOffset)
    else
      var first := WrapParagraph(paras[0], x, yOffset, width, measure);
      var rest := WrapParagraphs(paras[1..], x, first.bottom, width, measure);
      Block(first.lines + rest.lines, rest.bottom)
  }

  /** The lines `renderText(text, x, y, width)` draws, in drawing order. */
  function Layout(text: string, x: int, y: int, width: int, measure: Measure): seq<Placed> {
    WrapParagraphs(Paragraphs(text), x, y, width, measure).lines
  }

  /**
   * A line the wrap may emit: empty, a single word (which may overflow), or
   * a line whose measured width was accepted. The test is `width > lineWidth`,
   * so a line exactly `lineWidth` wide fits.
   */
  predicate Acceptable(line: string, width: int, measure: Measure) {
    line == [] || IsWord(line) || measure(line).width <= width
  }

  /** Every line in `lines` is Acceptable. */
  predicate AllAcceptable(lines: seq<Placed>, width: int, measure: Measure) {
    forall i :: 0 <= i < |lines| ==> Acceptable(lines[i].text, width, measure)
  }

  /** `d` is the height `measure` reports for some string. */
  ghost predicate IsHeight(measure: Measure, d: int) {
    exists s :: measure(s).height == d
  }

  /**
   * The lines sit at x; the first at `top`; each next line, and finally `bottom`,
   * lies a measured height plus LineGap below the line before it.
   */
  ghost predicate Chain(lines: seq<Placed>, x: int, top: int, bottom: int, measure: Measure)
    decreases |lines|
  {
    if lines == [] then top == bottom
    else
      var next := if |lines| > 1 then lines[1].y else bottom;
      && lines[0].x == x
      && lines[0].y == top
      && IsHeight(measure, next - top - LineGap)
      && Chain(lines[1..], x, next, bottom, measure)
  }

  // ---------------------------------------------------------------------
  // The imperative renderText

  /**
   * `renderText`: the two nested loops over the stream and the word stream,
   * returning the lines in the order `renderTextLine` draws them.
   */
  method RenderText(text: string, x: int, y: int, lineWidth: int, measure: Measure)
    returns (drawn: seq<Placed>)
    ensures drawn == Layout(text, x, y, lineWidth, measure)
    ensures AllAcceptable(drawn, lineWidth, measure)
    ensures LineWords(drawn) == Words(text)
  {
    ghost var whole := WrapParagraphs(Paragraphs(text), x, y, lineWidth, measure);
    var stream := text;
    var yOffset := y;
    drawn := [];
    while stream != []
      invariant Remains(whole, drawn, stream, x, yOffset, lineWidth, measure)
      decreases |stream|
    {
      var line := GetLine(stream).0;
      var lines, bottom := RenderParagraph(line, x, yOffset, lineWidth, measure);
      RemainsStep(whole, drawn, stream, x, yOffset, lineWidth, measure);
      stream := GetLine(stream).1;
      yOffset := bottom;
      drawn := drawn + lines;
    }
    assert drawn == Layout(text, x, y, lineWidth, measure) by {
      assert WrapParagraphs(Paragraphs(stream), x, yOffset, lineWidth, measure).lines == [];
    }
    LayoutAcceptable(text, x, y, lineWidth, measure);
    LayoutPreservesWords(text, x, y, lineWidth, measure);
  }

  /** `whole` is the lines drawn so far followed by what the paragraphs left in `stream` emit below `yOffset`. */
  ghost predicate Remains(whole: Block, drawn: seq<Placed>, stream: string, x: int, yOffset: int,
                          width: int, measure: Measure) {
    var left := WrapParagraphs(Paragraphs(stream), x, yOffset, width, measure);
    whole.lines == drawn + left.lines && whole.bottom == left.bottom
  }

  /** One `std::getline` keeps Remains once the first paragraph's lines are drawn. */
  lemma RemainsStep(whole: Block, drawn: seq<Placed>, stream: string, x: int, yOffset: int,
                    width: int, measure: Measure)
    requires stream != []
    requires Remains(whole, drawn, stream, x, yOffset, width, measure)
    ensures var first := WrapParagraph(GetLine(stream).0, x, yOffset, width, measure);
            Remains(whole, drawn + first.lines, GetLine(stream).1, x, first.bottom, width, measure)
  {
    var first := WrapParagraph(GetLine(stream).0, x, yOffset, width, measure);
    var rest := WrapParagraphs(Paragraphs(GetLine(stream).1), x, first.bottom, width, measure);
    var left := WrapParagraphs(Paragraphs(stream), x, yOffset, width, measure);
    assert left.lines == first.lines + rest.lines && left.bottom == rest.bottom by {
      WrapParagraphsStep(stream, x, yOffset, width, measure);
    }
    assert whole.lines == drawn + left.lines && whole.bottom == left.bottom;
    assert drawn + first.lines + rest.lines == drawn + (first.lines + rest.lines);
  }

  /**
   * The body of `while (std::getline(stream, line))`: the word loop over one
   * paragraph and the flush of a non-empty accumulator. Returns the lines
   * drawn and the new `yOffset`.
   */
  method RenderParagraph(line: string, x: int, y: int, lineWidth: int, measure: Measure)
    returns (drawn: seq<Placed>, yOffset: int)
    ensures drawn == WrapParagraph(line, x, y, lineWidth, measure).lines
    ensures yOffset == WrapParagraph(line, x, y, lineWidth, measure).bottom
  {
    yOffset := y;
    drawn := [];
    ghost var para := Fill(Words(line), "", x, y, lineWidth, measure);
    ghost var ws := Words(line);
    var wordStream := line;
    var currentLine := "";
    var next := NextWord(wordStream);
    NextWordTakesFirst(wordStream);
    while next.Some?
      invariant next.None? ==> ws == []
      invariant next.Some? ==> ws == [next.value.0] + Words(next.value.1)
      invariant Continues(para, drawn, Fill(ws, currentLine, x, yOffset, lineWidth, measure))
      decreases |ws|
    {
      var word := next.value.0;
      wordStream := next.value.1;
      ContinuesStep(para, drawn, ws, currentLine, x, yOffset, lineWidth, measure);
      ws := ws[1..];
      var testLine := Candidate(currentLine, word);
      var size := measure(testLine);
      if size.width > lineWidth {
        drawn := drawn + [Placed(currentLine, x, yOffset)];
        yOffset := yOffset + size.height + LineGap;
        currentLine := word;
      } else {
        currentLine := testLine;
      }
      next := NextWord(wordStream);
      NextWordTakesFirst(wordStream);
    }
    assert para == Partial(drawn, currentLine, yOffset);
    if currentLine != [] {
      var size := measure(currentLine);
      drawn := drawn + [Placed(currentLine, x, yOffset)];
      yOffset := yOffset + size.height + LineGap;
    }
  }

  /** `para` is `done` followed by what filling `f` still emits. */
  predicate Continues(para: Partial, done: seq<Placed>, f: Partial) {
    para.lines == done + f.lines && para.current == f.current && para.bottom == f.bottom
  }

  /** One `std::getline` of the outer loop: the first paragraph, then the others below it. */
  lemma WrapParagraphsStep(stream: string, x: int, yOffset: int, width: int, measure: Measure)
    requires stream != []
    ensures var first := WrapParagraph(GetLine(stream).0, x, yOffset, width, measure);
            var rest := WrapParagraphs(Paragraphs(GetLine(stream).1), x, first.bottom, width, measure);
            WrapParagraphs(Paragraphs(stream), x, yOffset, width, measure)
              == Block(first.lines + rest.lines, rest.bottom)
  {
    assert Paragraphs(stream) == [GetLine(stream).0] + Paragraphs(GetLine(stream).1);
    assert Paragraphs(stream)[1..] == Paragraphs(GetLine(stream).1);
  }

  /** One word of the loop keeps `para` the lines drawn followed by what Fill still emits. */
  lemma ContinuesStep(para: Partial, drawn: seq<Placed>, ws: seq<string>, current: string,
                      x: int, yOffset: int, width: int, measure: Measure)
    requires ws != []
    requires Continues(para, drawn, Fill(ws, current, x, yOffset, width, measure))
    ensures var test := Candidate(current, ws[0]);
            var size := measure(test);
            if size.width > width then
              Continues(para, drawn + [Placed(current, x, yOffset)],
                        Fill(ws[1..], ws[0], x, yOffset + size.height + LineGap, width, measure))
            else
              Continues(para, drawn, Fill(ws[1..], test, x, yOffset, width, measure))
  {
    var test := Candidate(current, ws[0]);
    var size := measure(test);
    if size.width > width {
      var rest := Fill(ws[1..], ws[0], x, yOffset + size.height + LineGap, width, measure);
      assert drawn + [Placed(current, x, yOffset)] + rest.lines
          == drawn + ([Placed(current, x, yOffset)] + rest.lines);
    }
  }

  // ---------------------------------------------------------------------
  // Tokenisation lemmas

  /** A whitespace character ends the word being read and separates the two sides. */
  lemma {:induction false} ScanSplit(a: string, c: char, b: string, acc: string)
    requires IsSpace(c)
    ensures Scan(a + [c] + b, acc) == Scan(a, acc) + Words(b)
    decreases |a|
  {
    if a == [] {
      assert a + [c] + b == [c] + b;
      assert ([c] + b)[1..] == b;
    } else {
      assert (a + [c] + b)[0] == a[0];
      assert (a + [c] + b)[1..] == a[1..] + [c] + b;
      if IsSpace(a[0]) {
        ScanSplit(a[1..], c, b, []);
      } else {
        ScanSplit(a[1..], c, b, acc + [a[0]]);
      }
    }
  }

  /** A whitespace character separates the words on its two sides. */
  lemma WordsSplit(a: string, c: char, b: string)
    requires IsSpace(c)
    ensures Words(a + [c] + b) == Words(a) + Words(b)
  {
    ScanSplit(a, c, b, []);
  }

  /** Reading the characters of a word onto `acc` yields one word at the end. */
  lemma {:induction false} ScanOfWord(w: string, acc: string)
    requires forall i :: 0 <= i < |w| ==> !IsSpace(w[i])
    ensures Scan(w, acc) == Flush(acc + w)
    decreases |w|
  {
    if w == [] {
      assert acc + w == acc;
    } else {
      assert !IsSpace(w[0]);
      ScanOfWord(w[1..], acc + [w[0]]);
      assert acc + [w[0]] + w[1..] == acc + w;
    }
  }

  /** A word tokenises to itself. */
  lemma WordsOfWord(w: string)
    requires IsWord(w)
    ensures Words(w) == [w]
  {
    ScanOfWord(w, []);
    assert [] + w == w;
  }

  /** Every extracted word is a word. */
  lemma {:induction false} ScanAreWords(s: string, acc: string)
    requires forall i :: 0 <= i < |acc| ==> !IsSpace(acc[i])
    ensures forall i :: 0 <= i < |Scan(s, acc)| ==> IsWord(Scan(s, acc)[i])
    decreases |s|
  {
    if s != [] {
      if IsSpace(s[0]) {
        ScanAreWords(s[1..], []);
      } else {
        var acc' := acc + [s[0]];
        assert forall i :: 0 <= i < |acc'| ==> acc'[i] == if i < |acc| then acc[i] else s[0];
        ScanAreWords(s[1..], acc');
      }
    }
  }

  /** Whitespace-only input, read with an empty accumulator, yields no word. */
  lemma {:induction false} ScanBlank(s: string, acc: string)
    ensures Scan(s, acc) == [] <==> acc == [] && AllSpaces(s)
    decreases |s|
  {
    if s != [] {
      if IsSpace(s[0]) {
        ScanBlank(s[1..], []);
        assert AllSpaces(s) <==> AllSpaces(s[1..]) by {
          assert forall i :: 0 < i < |s| ==> s[i] == s[1..][i - 1];
        }
      } else {
        ScanBlank(s[1..], acc + [s[0]]);
        ScanAreWords(s[1..], []);
        assert !AllSpaces(s) by { assert !IsSpace(s[0]); }
        NonEmptyAccumulator(s[1..], acc + [s[0]]);
      }
    }
  }

  /** A non-empty accumulator is always eventually emitted. */
  lemma {:induction false} NonEmptyAccumulator(s: string, acc: string)
    requires acc != []
    ensures Scan(s, acc) != []
    decreases |s|
  {
    if s != [] && !IsSpace(s[0]) {
      NonEmptyAccumulator(s[1..], acc + [s[0]]);
    }
  }

  /** No word is extracted exactly from empty or whitespace-only text. */
  lemma WordsBlank(s: string)
    ensures Words(s) == [] <==> AllSpaces(s)
  {
    ScanBlank(s, []);
  }

  lemma WordsAreWords(s: string)
    ensures forall i :: 0 <= i < |Words(s)| ==> IsWord(Words(s)[i])
  {
    ScanAreWords(s, []);
  }

  /** Appending a word to the accumulator appends it to the accumulator's words. */
  lemma WordsOfCandidate(current: string, w: string)
    requires IsWord(w)
    ensures Words(Candidate(current, w)) == Words(current) + [w]
  {
    WordsOfWord(w);
    if current == [] {
      assert Candidate(current, w) == w;
    } else {
      assert Candidate(current, w) == current + [' '] + w;
      WordsSplit(current, ' ', w);
    }
  }

  /** The words of a text are the words of its paragraphs, in order. */
  lemma {:induction false} ParagraphWordsOfText(s: string)
    ensures ParagraphWords(Paragraphs(s)) == Words(s)
    decreases |s|
  {
    if s != [] {
      var (line, rest) := GetLine(s);
      GetLineShape(s);
      ParagraphWordsOfText(rest);
      if s == line + "\n" + rest {
        assert s == line + ['\n'] + rest;
        WordsSplit(line, '\n', rest);
      } else {
        assert Words(rest) == [];
      }
    }
  }

  lemma {:induction false} LineWordsAppend(a: seq<Placed>, b: seq<Placed>)
    ensures LineWords(a + b) == LineWords(a) + LineWords(b)
  {
    if a == [] {
      assert a + b == b;
    } else {
      assert (a + b)[0] == a[0];
      assert (a + b)[1..] == a[1..] + b;
      LineWordsAppend(a[1..], b);
    }
  }

  // ---------------------------------------------------------------------
  // Fit

  lemma {:induction false} FillAcceptable(words: seq<string>, current: string, x: int, yOffset: int,
                                          width: int, measure: Measure)
    requires forall i :: 0 <= i < |words| ==> IsWord(words[i])
    requires Acceptable(current, width, measure)
    ensures var p := Fill(words, current, x, yOffset, width, measure);
            && Acceptable(p.current, width, measure)
            && AllAcceptable(p.lines, width, measure)
    decreases |words|
  {
    if words != [] {
      var test := Candidate(current, words[0]);
      if measure(test).width > width {
        FillAcceptable(words[1..], words[0], x, yOffset + measure(test).height + LineGap, width, measure);
      } else {
        FillAcceptable(words[1..], test, x, yOffset, width, measure);
      }
    }
  }

  lemma WrapParagraphAcceptable(line: string, x: int, yOffset: int, width: int, measure: Measure)
    ensures AllAcceptable(WrapParagraph(line, x, yOffset, width, measure).lines, width, measure)
  {
    WordsAreWords(line);
    FillAcceptable(Words(line), "", x, yOffset, width, measure);
    var p := Fill(Words(line), "", x, yOffset, width, measure);
    if p.current != [] {
      var last := [Placed(p.current, x, p.bottom)];
      assert AllAcceptable(last, width, measure);
      AllAcceptableAppend(p.lines, last, width, measure);
    }
  }

  lemma AllAcceptableAppend(a: seq<Placed>, b: seq<Placed>, width: int, measure: Measure)
    requires AllAcceptable(a, width, measure) && AllAcceptable(b, width, measure)
    ensures AllAcceptable(a + b, width, measure)
  {
    forall i | 0 <= i < |a + b| ensures Acceptable((a + b)[i].text, width, measure) {
      if i < |a| { assert (a + b)[i] == a[i]; } else { assert (a + b)[i] == b[i - |a|]; }
    }
  }

  lemma {:induction false} WrapParagraphsAcceptable(paras: seq<string>, x: int, yOffset: int,
                                                    width: int, measure: Measure)
    ensures AllAcceptable(WrapParagraphs(paras, x, yOffset, width, measure).lines, width, measure)
    decreases |paras|
  {
    if paras != [] {
      var first := WrapParagraph(paras[0], x, yOffset, width, measure);
      var rest := WrapParagraphs(paras[1..], x, first.bottom, width, measure);
      WrapParagraphAcceptable(paras[0], x, yOffset, width, measure);
      WrapParagraphsAcceptable(paras[1..], x, first.bottom, width, measure);
      AllAcceptableAppend(first.lines, rest.lines, width, measure);
    }
  }

  /**
   * Every drawn line is empty, a single word, or no wider than the line
   * width when it was accepted.
   */
  lemma LayoutAcceptable(text: string, x: int, y: int, width: int, measure: Measure)
    ensures AllAcceptable(Layout(text, x, y, width, measure), width, measure)
  {
    assert Layout(text, x, y, width, measure) == WrapParagraphs(Paragraphs(text), x, y, width, measure).lines;
    WrapParagraphsAcceptable(Paragraphs(text), x, y, width, measure);
  }

  // ---------------------------------------------------------------------
  // Word preservation

  lemma {:induction false} FillWords(words: seq<string>, current: string, x: int, yOffset: int,
                                     width: int, measure: Measure)
    requires forall i :: 0 <= i < |words| ==> IsWord(words[i])
    ensures var p := Fill(words, current, x, yOffset, width, measure);
            LineWords(p.lines) + Words(p.current) == Words(current) + words
    decreases |words|
  {
    if words != [] {
      var test := Candidate(current, words[0]);
      var below := yOffset + measure(test).height + LineGap;
      if measure(test).width > width {
        FillWords(words[1..], words[0], x, below, width, measure);
        FillWordsOverflow(words, current, x, yOffset, width, measure);
      } else {
        FillWords(words[1..], test, x, yOffset, width, measure);
        WordsOfCandidate(current, words[0]);
        assert words == [words[0]] + words[1..];
      }
    }
  }

  /** The overflow step of FillWords: the emitted accumulator keeps its words. */
  lemma FillWordsOverflow(words: seq<string>, current: string, x: int, yOffset: int,
                          width: int, measure: Measure)
    requires words != [] && IsWord(words[0])
    requires measure(Candidate(current, words[0])).width > width
    requires var below := yOffset + measure(Candidate(current, words[0])).height + LineGap;
             var rest := Fill(words[1..], words[0], x, below, width, measure);
             LineWords(rest.lines) + Words(rest.current) == Words(words[0]) + words[1..]
    ensures var p := Fill(words, current, x, yOffset, width, measure);
            LineWords(p.lines) + Words(p.current) == Words(current) + words
  {
    var below := yOffset + measure(Candidate(current, words[0])).height + LineGap;
    var rest := Fill(words[1..], words[0], x, below, width, measure);
    WordsOfWord(words[0]);
    LineWordsAppend([Placed(current, x, yOffset)], rest.lines);
    assert LineWords([Placed(current, x, yOffset)]) == Words(current);
    assert words == [words[0]] + words[1..];
  }

  lemma WrapParagraphWords(line: string, x: int, yOffset: int, width: int, measure: Measure)
    ensures LineWords(WrapParagraph(line, x, yOffset, width, measure).lines) == Words(line)
  {
    WordsAreWords(line);
    var p := Fill(Words(line), "", x, yOffset, width, measure);
    assert Words("") == [];
    FillWords(Words(line), "", x, yOffset, width, measure);
    var b := WrapParagraph(line, x, yOffset, width, measure);
    assert LineWords(p.lines) + Words(p.current) == Words(line);
    if p.current != [] {
      var last := [Placed(p.current, x, p.bottom)];
      assert b.lines == p.lines + last;
      LineWordsAppend(p.lines, last);
      assert last[1..] == [];
      assert LineWords(last) == Words(p.current) + LineWords([]);
    } else {
      assert b.lines == p.lines;
      assert Words(p.current) == [];
    }
  }

  lemma {:induction false} WrapParagraphsWords(paras: seq<string>, x: int, yOffset: int,
                                               width: int, measure: Measure)
    ensures LineWords(WrapParagraphs(paras, x, yOffset, width, measure).lines) == ParagraphWords(paras)
    decreases |paras|
  {
    if paras != [] {
      var first := WrapParagraph(paras[0], x, yOffset, width, measure);
      var rest := WrapParagraphs(paras[1..], x, first.bottom, width, measure);
      WrapParagraphWords(paras[0], x, yOffset, width, measure);
      WrapParagraphsWords(paras[1..], x, first.bottom, width, measure);
      LineWordsAppend(first.lines, rest.lines);
    }
  }

  /**
   * The words of the drawn lines, in order, are exactly the
   * whitespace-separated words of the text: nothing dropped, duplicated or
   * reordered.
   */
  lemma LayoutPreservesWords(text: string, x: int, y: int, width: int, measure: Measure)
    ensures LineWords(Layout(text, x, y, width, measure)) == Words(text)
  {
    WrapParagraphsWords(Paragraphs(text), x, y, width, measure);
    ParagraphWordsOfText(text);
  }

  // ---------------------------------------------------------------------
  // Empty lines and blank paragraphs

  /** Once the accumulator is non-empty it stays so, and every line emitted is non-empty. */
  lemma {:induction false} FillNonEmpty(words: seq<string>, current: string, x: int, yOffset: int,
                                        width: int, measure: Measure)
    requires forall i :: 0 <= i < |words| ==> IsWord(words[i])
    requires current != []
    ensures var p := Fill(words, current, x, yOffset, width, measure);
            p.current != [] && forall i :: 0 <= i < |p.lines| ==> p.lines[i].text != []
    decreases |words|
  {
    if words != [] {
      var test := Candidate(current, words[0]);
      if measure(test).width > width {
        FillNonEmpty(words[1..], words[0], x, yOffset + measure(test).height + LineGap, width, measure);
      } else {
        FillNonEmpty(words[1..], test, x, yOffset, width, measure);
      }
    }
  }

  /**
   * A paragraph draws nothing, and leaves the offset where it was, exactly
   * when it is empty or whitespace only.
   */
  lemma BlankParagraph(line: string, x: int, yOffset: int, width: int, measure: Measure)
    ensures var b := WrapParagraph(line, x, yOffset, width, measure);
            (b.lines == [] <==> AllSpaces(line)) && (AllSpaces(line) ==> b.bottom == yOffset)
  {
    var ws := Words(line);
    WordsBlank(line);
    if !AllSpaces(line) {
      WordsAreWords(line);
      var first := Candidate("", ws[0]);
      assert first == ws[0];
      if measure(first).width > width {
        FillNonEmpty(ws[1..], ws[0], x, yOffset + measure(first).height + LineGap, width, measure);
      } else {
        FillNonEmpty(ws[1..], first, x, yOffset, width, measure);
      }
    }
  }

  /**
   * Within a paragraph, a drawn line is empty exactly when it is the
   * paragraph's first line and the first word alone is wider than the line.
   */
  lemma EmptyLineOnlyOnFirstOverflow(line: string, x: int, yOffset: int, width: int, measure: Measure)
    ensures var ls := WrapParagraph(line, x, yOffset, width, measure).lines;
            forall k :: 0 <= k < |ls| ==>
              (ls[k].text == [] <==> k == 0 && measure(Words(line)[0]).width > width)
  {
    var ws := Words(line);
    var p := Fill(ws, "", x, yOffset, width, measure);
    if ws != [] {
      WordsAreWords(line);
      var first := Candidate("", ws[0]);
      assert first == ws[0];
      if measure(first).width > width {
        FillNonEmpty(ws[1..], ws[0], x, yOffset + measure(first).height + LineGap, width, measure);
      } else {
        FillNonEmpty(ws[1..], first, x, yOffset, width, measure);
      }
    }
  }

  // ---------------------------------------------------------------------
  // Vertical offsets

  lemma {:induction false} ChainAppend(a: seq<Placed>, b: seq<Placed>, x: int, top: int, mid: int,
                                       bottom: int, measure: Measure)
    requires Chain(a, x, top, mid, measure) && Chain(b, x, mid, bottom, measure)
    ensures Chain(a + b, x, top, bottom, measure)
    decreases |a|
  {
    if a == [] {
      assert a + b == b;
    } else {
      var next := if |a| > 1 then a[1].y else mid;
      assert (a + b)[0] == a[0];
      assert (a + b)[1..] == a[1..] + b;
      ChainAppend(a[1..], b, x, next, mid, bottom, measure);
      if |a| > 1 {
        assert (a + b)[1] == a[1];
      } else if b != [] {
        assert (a + b)[1] == b[0];
        assert b[0].y == mid;
      } else {
        assert a + b == a;
      }
    }
  }

  lemma {:induction false} FillChain(words: seq<string>, current: string, x: int, yOffset: int,
                                     width: int, measure: Measure)
    ensures var p := Fill(words, current, x, yOffset, width, measure);
            Chain(p.lines, x, yOffset, p.bottom, measure)
    decreases |words|
  {
    if words != [] {
      var test := Candidate(current, words[0]);
      var size := measure(test);
      if size.width > width {
        var below := yOffset + size.height + LineGap;
        var rest := Fill(words[1..], words[0], x, below, width, measure);
        FillChain(words[1..], words[0], x, below, width, measure);
        assert IsHeight(measure, below - yOffset - LineGap) by {
          assert measure(test).height == below - yOffset - LineGap;
        }
        assert Chain([Placed(current, x, yOffset)], x, yOffset, below, measure);
        ChainAppend([Placed(current, x, yOffset)], rest.lines, x, yOffset, below, rest.bottom, measure);
      } else {
        FillChain(words[1..], test, x, yOffset, width, measure);
      }
    }
  }

  lemma WrapParagraphChain(line: string, x: int, yOffset: int, width: int, measure: Measure)
    ensures var b := WrapParagraph(line, x, yOffset, width, measure);
            Chain(b.lines, x, yOffset, b.bottom, measure)
  {
    var p := Fill(Words(line), "", x, yOffset, width, measure);
    FillChain(Words(line), "", x, yOffset, width, measure);
    if p.current != [] {
      var below := p.bottom + measure(p.current).height + LineGap;
      assert IsHeight(measure, below - p.bottom - LineGap) by {
        assert measure(p.current).height == below - p.bottom - LineGap;
      }
      assert Chain([Placed(p.current, x, p.bottom)], x, p.bottom, below, measure);
      ChainAppend(p.lines, [Placed(p.current, x, p.bottom)], x, yOffset, p.bottom, below, measure);
    }
  }

  lemma {:induction false} WrapParagraphsChain(paras: seq<string>, x: int, yOffset: int,
                                               width: int, measure: Measure)
    ensures var b := WrapParagraphs(paras, x, yOffset, width, measure);
            Chain(b.lines, x, yOffset, b.bottom, measure)
    decreases |paras|
  {
    if paras != [] {
      var first := WrapParagraph(paras[0], x, yOffset, width, measure);
      var rest := WrapParagraphs(paras[1..], x, first.bottom, width, measure);
      WrapParagraphChain(paras[0], x, yOffset, width, measure);
      WrapParagraphsChain(paras[1..], x, first.bottom, width, measure);
      ChainAppend(first.lines, rest.lines, x, yOffset, first.bottom, rest.bottom, measure);
    }
  }

  /**
   * All lines are drawn at x, the first at y, and each next one a measured
   * height plus LineGap below the one before.
   */
  lemma LayoutChain(text: string, x: int, y: int, width: int, measure: Measure)
    ensures Chain(Layout(text, x, y, width, measure), x, y,
                  WrapParagraphs(Paragraphs(text), x, y, width, measure).bottom, measure)
  {
    WrapParagraphsChain(Paragraphs(text), x, y, width, measure);
  }

  lemma {:induction false} ChainRising(lines: seq<Placed>, x: int, top: int, bottom: int, measure: Measure)
    requires Chain(lines, x, top, bottom, measure)
    requires forall s :: measure(s).height >= 0
    ensures forall i :: 0 <= i < |lines| ==> lines[i].x == x && top <= lines[i].y
    ensures forall i :: 0 <= i < |lines| - 1 ==> lines[i].y + LineGap <= lines[i + 1].y
    decreases |lines|
  {
    if lines != [] {
      var next := if |lines| > 1 then lines[1].y else bottom;
      ChainRising(lines[1..], x, next, bottom, measure);
      assert forall i :: 1 <= i < |lines| ==> lines[i] == lines[1..][i - 1];
    }
  }

  /**
   * With non-negative heights, the first line is at y, all lines are at x,
   * and each line is at least LineGap below the one before.
   */
  lemma LayoutOffsetsRise(text: string, x: int, y: int, width: int, measure: Measure)
    requires forall s :: measure(s).height >= 0
    ensures var ls := Layout(text, x, y, width, measure);
            && (ls != [] ==> ls[0].y == y)
            && (forall i :: 0 <= i < |ls| ==> ls[i].x == x && y <= ls[i].y)
            && (forall i :: 0 <= i < |ls| - 1 ==> ls[i].y + LineGap <= ls[i + 1].y)
  {
    var b := WrapParagraphs(Paragraphs(text), x, y, width, measure);
    LayoutChain(text, x, y, width, measure);
    ChainRising(b.lines, x, y, b.bottom, measure);
  }

  lemma {:induction false} ChainEven(lines: seq<Placed>, x: int, top: int, bottom: int,
                                     measure: Measure, h: int)
    requires Chain(lines, x, top, bottom, measure)
    requires forall s :: measure(s).height == h
    ensures forall i :: 0 <= i < |lines| ==> lines[i].y == top + i * (h + LineGap)
    ensures bottom == top + |lines| * (h + LineGap)
    decreases |lines|
  {
    if lines != [] {
      var next := if |lines| > 1 then lines[1].y else bottom;
      assert next == top + h + LineGap;
      ChainEven(lines[1..], x, next, bottom, measure, h);
      forall i | 1 <= i < |lines| ensures lines[i].y == top + i * (h + LineGap) {
        assert lines[i] == lines[1..][i - 1];
        assert (i - 1) * (h + LineGap) + (h + LineGap) == i * (h + LineGap);
      }
      assert (|lines| - 1) * (h + LineGap) + (h + LineGap) == |lines| * (h + LineGap);
    }
  }

  /**
   * With a font whose every measured height is h, the k-th drawn line is at
   * y + k * (h + LineGap).
   */
  lemma LayoutEvenlySpaced(text: string, x: int, y: int, width: int, measure: Measure, h: int)
    requires forall s :: measure(s).height == h
    ensures var ls := Layout(text, x, y, width, measure);
            forall k :: 0 <= k < |ls| ==> ls[k].y == y + k * (h + LineGap)
  {
    var b := WrapParagraphs(Paragraphs(text), x, y, width, measure);
    LayoutChain(text, x, y, width, measure);
    ChainEven(b.lines, x, y, b.bottom, measure, h);
  }
  /**
   * Text that starts with a printing character draws at least one line, and
   * the first line is at (x, y).
   */
  lemma LayoutStartsAt(text: string, x: int, y: int, width: int, measure: Measure)
    requires text != [] && !IsSpace(text[0])
    ensures var ls := Layout(text, x, y, width, measure);
            ls != [] && ls[0].x == x && ls[0].y == y
  {
    var line := GetLine(text).0;
    assert line != [] && line[0] == text[0];
    assert !AllSpaces(line);
    assert Paragraphs(text) == [line] + Paragraphs(GetLine(text).1);
    var first := WrapParagraph(line, x, y, width, measure);
    BlankParagraph(line, x, y, width, measure);
    WrapParagraphChain(line, x, y, width, measure);
    var rest := WrapParagraphs(Paragraphs(GetLine(text).1), x, first.bottom, width, measure);
    assert Layout(text, x, y, width, measure) == first.lines + rest.lines;
    assert (first.lines + rest.lines)[0] == first.lines[0];
  }
}
