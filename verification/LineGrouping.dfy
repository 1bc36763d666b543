/** Grouping the words of a page into lines (app/services/ocr/pdfplumber_service.py), over exact reals. */
module LineGrouping {

  /** A word with its box; `line` is its top coordinate rounded to one decimal. */
  datatype Word = Word(text: string, x0: real, top: real, x1: real, bottom: real, line: real)

  type Group = seq<Word>

  function Distance(a: real, b: real): real {
    if a < b then b - a else a - b
  }

  const TOLERANCE := 5.0

  /** The word stays on the line that `anchor` opened. */
  predicate SameLine(anchor: Word, word: Word) {
    Distance(word.line, anchor.line) <= TOLERANCE
  }

  /** How many words, from position k on, stay on the line of the first word. */
  function LineEnd(words: seq<Word>, k: nat): (n: nat)
    requires 0 < k <= |words|
    ensures k <= n <= |words|
    ensures forall i | k <= i < n :: SameLine(words[0], words[i])
    ensures n < |words| ==> !SameLine(words[0], words[n])
    decreases |words| - k
  {
    if k < |words| && SameLine(words[0], words[k]) then LineEnd(words, k + 1) else k
  }

  /** The greedy grouping. */
  function Lines(words: seq<Word>): seq<Group>
    decreases |words|
  {
    if words == [] then []
    else
      var n := LineEnd(words, 1);
      [words[..n]] + Lines(words[n..])
  }

  /** The loop of `_extract_page`: a word too far from the line's first word closes the line and opens the next. */
  method GroupLines(words: seq<Word>) returns (lines: seq<Group>)
    ensures lines == Lines(words)
  {
    lines := [];
    var currentLine: Group := [];
    var currentY := 0.0;
    NothingRead(words);
    for i := 0 to |words|
      invariant currentLine != [] ==> currentY == currentLine[0].line && OneLine(currentLine)
      invariant Remains(words, i, lines, currentLine)
    {
      var word := words[i];
      if currentLine == [] || Distance(word.line, currentY) > TOLERANCE {
        LineOpens(words, i, lines, currentLine);
        if currentLine != [] {
          lines := lines + [currentLine];
        }
        currentLine := [word];
        currentY := word.line;
      } else {
        LineGrows(words, i, lines, currentLine);
        currentLine := currentLine + [word];
      }
    }
    AllRead(words, lines, currentLine);
    if currentLine != [] {
      lines := lines + [currentLine];
    }
  }

  /** What is still to be grouped completes the lines found so far. */
  ghost predicate Remains(words: seq<Word>, i: nat, lines: seq<Group>, line: Group)
    requires i <= |words|
  {
    lines + Lines(line + words[i..]) == Lines(words)
  }

  lemma NothingRead(words: seq<Word>)
    ensures Remains(words, 0, [], [])
  {
    assert [] + words[0..] == words;
    assert [] + Lines(words) == Lines(words);
  }

  lemma LineOpens(words: seq<Word>, i: nat, lines: seq<Group>, line: Group)
    requires i < |words| && Remains(words, i, lines, line)
    requires line != [] ==> OneLine(line) && !SameLine(line[0], words[i])
    ensures Remains(words, i + 1, if line == [] then lines else lines + [line], [words[i]])
  {
    var rest := words[i..];
    assert rest == [words[i]] + words[i + 1..];
    if line == [] {
      assert line + rest == rest;
    } else {
      CloseLine(lines, line, rest);
    }
  }

  lemma LineGrows(words: seq<Word>, i: nat, lines: seq<Group>, line: Group)
    requires i < |words| && Remains(words, i, lines, line)
    ensures Remains(words, i + 1, lines, line + [words[i]])
  {
    assert line + words[i..] == (line + [words[i]]) + words[i + 1..];
  }

  lemma AllRead(words: seq<Word>, lines: seq<Group>, line: Group)
    requires Remains(words, |words|, lines, line) && (line != [] ==> OneLine(line))
    ensures (if line == [] then lines else lines + [line]) == Lines(words)
  {}

  predicate OneLine(line: Group) {
    line != [] && forall j | 0 <= j < |line| :: SameLine(line[0], line[j])
  }

  lemma CloseLine(lines: seq<Group>, line: Group, rest: seq<Word>)
    requires OneLine(line) && (rest != [] ==> !SameLine(line[0], rest[0]))
    ensures lines + Lines(line + rest) == lines + [line] + Lines(rest)
  {
    var words := line + rest;
    LineEndIs(words, 1, |line|);
    assert words[..|line|] == line && words[|line|..] == rest;
  }

  lemma {:induction false} LineEndIs(words: seq<Word>, k: nat, n: nat)
    requires 0 < k <= n <= |words|
    requires forall i | k <= i < n :: SameLine(words[0], words[i])
    requires n < |words| ==> !SameLine(words[0], words[n])
    ensures LineEnd(words, k) == n
    decreases n - k
  {}

  lemma {:induction false} LineEndReaches(words: seq<Word>, k: nat, n: nat)
    requires 0 < k <= n <= |words|
    requires forall i | k <= i < n :: SameLine(words[0], words[i])
    ensures LineEnd(words, k) >= n
    decreases n - k
  {}

  // ---------- What the grouping is ----------

  function Flatten(lines: seq<Group>): seq<Word> {
    if lines == [] then [] else lines[0] + Flatten(lines[1..])
  }

  /** Contiguous, non-empty groups in which every word lies within the tolerance of the group's first word. */
  ghost predicate ValidGrouping(lines: seq<Group>, words: seq<Word>) {
    && Flatten(lines) == words
    && forall i | 0 <= i < |lines| :: OneLine(lines[i])
  }

  lemma PrependLine(line: Group, lines: seq<Group>, words: seq<Word>)
    requires OneLine(line) && ValidGrouping(lines, words)
    ensures ValidGrouping([line] + lines, line + words)
  {}

  /** In any order of the words, the greedy lines are a valid grouping of exactly these words. */
  lemma {:induction false} LinesAreValid(words: seq<Word>)
    ensures ValidGrouping(Lines(words), words)
    decreases |words|
  {
    if words != [] {
      var n := LineEnd(words, 1);
      LinesAreValid(words[n..]);
      assert words[..n][0] == words[0];
      PrependLine(words[..n], Lines(words[n..]), words[n..]);
      assert words == words[..n] + words[n..];
    }
  }

  /** Consecutive lines start further apart than the tolerance. */
  lemma {:induction false} AnchorsAreApart(words: seq<Word>, i: nat)
    requires i + 1 < |Lines(words)|
    ensures Lines(words)[i] != [] && Lines(words)[i + 1] != []
    ensures Distance(Lines(words)[i + 1][0].line, Lines(words)[i][0].line) > TOLERANCE
    decreases |words|
  {
    var n := LineEnd(words, 1);
    var rest := Lines(words[n..]);
    if i > 0 {
      AnchorsAreApart(words[n..], i - 1);
    } else {
      assert Lines(words)[1] == rest[0] == words[n..][..LineEnd(words[n..], 1)];
    }
  }

  /** A new line starts exactly at a word more than 5 above or below the first word of the line. */
  lemma LinesAreFiveApart(words: seq<Word>, i: nat)
    requires i < |Lines(words)|
    ensures Flatten(Lines(words)) == words
    ensures var line := Lines(words)[i];
            line != [] && forall j | 0 <= j < |line| :: -5.0 <= line[j].line - line[0].line <= 5.0
    ensures i + 1 < |Lines(words)| ==>
              var line, next := Lines(words)[i], Lines(words)[i + 1];
              next != [] && !(-5.0 <= next[0].line - line[0].line <= 5.0)
  {
    LinesAreValid(words);
    assert OneLine(Lines(words)[i]);
    assert forall j | 0 <= j < |Lines(words)[i]| :: SameLine(Lines(words)[i][0], Lines(words)[i][j]);
    if i + 1 < |Lines(words)| {
      AnchorsAreApart(words, i);
    }
  }

  // ---------- For words from top to bottom it is the shortest ----------

  ghost predicate TopDown(words: seq<Word>) {
    forall i, j | 0 <= i < j < |words| :: words[i].line <= words[j].line
  }

  /** Dropping the first d words of a valid grouping leaves a valid grouping with no more groups. */
  lemma {:induction false} DropWords(lines: seq<Group>, words: seq<Word>, d: nat) returns (shorter: seq<Group>)
    requires ValidGrouping(lines, words) && TopDown(words) && d <= |words|
    ensures ValidGrouping(shorter, words[d..]) && |shorter| <= |lines|
  {
    if d == 0 {
      shorter := lines;
      assert words[0..] == words;
    } else {
      var first, rest := lines[0], words[|lines[0]|..];
      assert words[..|first|] == first && rest == Flatten(lines[1..]);
      if d < |first| {
        shorter := [first[d..]] + lines[1..];
        assert shorter[1..] == lines[1..];
        assert words[d..] == first[d..] + rest;
        TruncatedLine(first, words, d);
      } else {
        shorter := DropWords(lines[1..], rest, d - |first|);
        assert rest[d - |first|..] == words[d..];
      }
    }
  }

  lemma TruncatedLine(line: Group, words: seq<Word>, d: nat)
    requires d < |line| <= |words| && words[..|line|] == line && TopDown(words)
    requires OneLine(line)
    ensures OneLine(line[d..])
  {}

  /** No valid grouping of words in reading order has fewer lines than the greedy one. */
  lemma {:induction false} GreedyIsShortest(words: seq<Word>, lines: seq<Group>)
    requires TopDown(words) && ValidGrouping(lines, words)
    ensures |Lines(words)| <= |lines|
    decreases |words|
  {
    if words != [] {
      var n := LineEnd(words, 1);
      var first := lines[0];
      assert words[..|first|] == first && words[|first|..] == Flatten(lines[1..]);
      assert forall i | 0 <= i < |first| :: words[i] == first[i];
      LineEndReaches(words, 1, |first|);
      var rest := DropWords(lines[1..], words[|first|..], n - |first|);
      assert words[|first|..][n - |first|..] == words[n..];
      GreedyIsShortest(words[n..], rest);
    }
  }

  lemma GreedyOn(a: Word, b: Word, c: Word)
    requires SameLine(a, b) && !SameLine(a, c) && !SameLine(c, a)
    ensures Lines([a, b, c, a]) == [[a, b], [c], [a]]
  {
    assert [a, b] + [c, a] == [a, b, c, a] && [c] + [a] == [c, a] && [a] + [] == [a];
    CloseLine([], [a, b], [c, a]);
    CloseLine([], [c], [a]);
    CloseLine([], [a], []);
  }

  /** Out of order it need not be: closing the first line early puts the last three words on one line. */
  lemma GreedyCanBeBeaten()
    ensures var words := [At(0.0), At(4.0), At(8.0), At(0.0)];
            var lines := [[At(0.0)], [At(4.0), At(8.0), At(0.0)]];
            ValidGrouping(lines, words) && |lines| < |Lines(words)|
  {
    var a, b, c := At(0.0), At(4.0), At(8.0);
    GreedyOn(a, b, c);
    var lines := [[a], [b, c, a]];
    assert lines[1..] == [[b, c, a]] && lines[1..][1..] == [];
    assert Flatten(lines[1..]) == [b, c, a];
  }

  function At(y: real): Word {
    Word("", 0.0, y, 0.0, y, y)
  }

  // ---------- Boxes ----------

  datatype Box = Box(x0: real, y0: real, x1: real, y1: real)

  function Clamp(v: real): real {
    if v < 0.0 then 0.0 else if v > 1.0 then 1.0 else v
  }

  function Least(vs: seq<real>): (m: real)
    requires vs != []
    ensures m in vs && forall v | v in vs :: m <= v
  {
    if |vs| == 1 then vs[0]
    else
      var m := Least(vs[1..]);
      assert forall v | v in vs :: v == vs[0] || v in vs[1..];
      if vs[0] <= m then vs[0] else m
  }

  function Greatest(vs: seq<real>): (m: real)
    requires vs != []
    ensures m in vs && forall v | v in vs :: v <= m
  {
    if |vs| == 1 then vs[0]
    else
      var m := Greatest(vs[1..]);
      assert forall v | v in vs :: v == vs[0] || v in vs[1..];
      if vs[0] >= m then vs[0] else m
  }

  /** The part of the unit square a box covers. */
  function Visible(b: Box): Box {
    Box(Clamp(b.x0), Clamp(b.y0), Clamp(b.x1), Clamp(b.y1))
  }

  function WordBox(w: Word, width: real, height: real): Box
    requires width > 0.0 && height > 0.0
  {
    Box(w.x0 / width, w.top / height, w.x1 / width, w.bottom / height)
  }

  predicate Within(inner: Box, outer: Box) {
    outer.x0 <= inner.x0 && outer.y0 <= inner.y0 && inner.x1 <= outer.x1 && inner.y1 <= outer.y1
  }

  /** `_words_to_block`, the box. */
  function BlockBox(words: Group, width: real, height: real): Box
    requires words != [] && width > 0.0 && height > 0.0
  {
    Visible(Box(Least(seq(|words|, i requires 0 <= i < |words| => words[i].x0)) / width,
                Least(seq(|words|, i requires 0 <= i < |words| => words[i].top)) / height,
                Greatest(seq(|words|, i requires 0 <= i < |words| => words[i].x1)) / width,
                Greatest(seq(|words|, i requires 0 <= i < |words| => words[i].bottom)) / height))
  }

  lemma DivideMonotone(a: real, b: real, d: real)
    requires d > 0.0 && a <= b
    ensures a / d <= b / d
  {}

  /** The block's box is the smallest that contains the visible box of every word. */
  lemma BlockBoxIsTight(words: Group, width: real, height: real, other: Box)
    requires words != [] && width > 0.0 && height > 0.0
    ensures forall i | 0 <= i < |words| ::
              Within(Visible(WordBox(words[i], width, height)), BlockBox(words, width, height))
    ensures (forall i | 0 <= i < |words| :: Within(Visible(WordBox(words[i], width, height)), other))
            ==> Within(BlockBox(words, width, height), other)
  {
    var x0s := seq(|words|, i requires 0 <= i < |words| => words[i].x0);
    var tops := seq(|words|, i requires 0 <= i < |words| => words[i].top);
    var x1s := seq(|words|, i requires 0 <= i < |words| => words[i].x1);
    var bottoms := seq(|words|, i requires 0 <= i < |words| => words[i].bottom);
    forall i | 0 <= i < |words|
      ensures Within(Visible(WordBox(words[i], width, height)), BlockBox(words, width, height))
    {
      assert x0s[i] in x0s && tops[i] in tops && x1s[i] in x1s && bottoms[i] in bottoms;
      DivideMonotone(Least(x0s), words[i].x0, width);
      DivideMonotone(Least(tops), words[i].top, height);
      DivideMonotone(words[i].x1, Greatest(x1s), width);
      DivideMonotone(words[i].bottom, Greatest(bottoms), height);
    }
    var a :| 0 <= a < |words| && x0s[a] == Least(x0s);
    var b :| 0 <= b < |words| && tops[b] == Least(tops);
    var c :| 0 <= c < |words| && x1s[c] == Greatest(x1s);
    var d :| 0 <= d < |words| && bottoms[d] == Greatest(bottoms);
    assert WordBox(words[a], width, height).x0 == Least(x0s) / width;
    assert WordBox(words[b], width, height).y0 == Least(tops) / height;
    assert WordBox(words[c], width, height).x1 == Greatest(x1s) / width;
    assert WordBox(words[d], width, height).y1 == Greatest(bottoms) / height;
  }

  /** The nearest point of the unit interval. */
  lemma ClampIsNearest(v: real, w: real)
    requires 0.0 <= w <= 1.0
    ensures 0.0 <= Clamp(v) <= 1.0 && Distance(v, Clamp(v)) <= Distance(v, w)
  {}

  /** What is visible of a box lies in the unit square, and it is the box itself exactly if that does. */
  lemma VisibleIs(b: Box)
    ensures Within(Visible(b), Box(0.0, 0.0, 1.0, 1.0))
    ensures Visible(b) == b <==> 0.0 <= b.x0 <= 1.0 && 0.0 <= b.y0 <= 1.0 && 0.0 <= b.x1 <= 1.0 && 0.0 <= b.y1 <= 1.0
  {}

  /** Scaled back to the page, the box of a word is where the word stands. */
  lemma WordBoxScales(w: Word, width: real, height: real)
    requires width > 0.0 && height > 0.0
    ensures var b := WordBox(w, width, height);
            b.x0 * width == w.x0 && b.y0 * height == w.top && b.x1 * width == w.x1 && b.y1 * height == w.bottom
  {}
}
