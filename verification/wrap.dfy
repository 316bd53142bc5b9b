/**
  The greedy word wrap `formatText(text, maxWidth)` that the command-line debate
  uses to lay out each reply in a note box.

  The text is split on single spaces, and the words are packed left to right:
  a word joins the current line when `currentLine.length + word.length + 1`
  is at most `maxWidth`, and otherwise the current line is pushed onto the
  result and the word starts the next one. The `+ 1` is counted even when the
  current line is empty, empty words come from stray spaces, and an overlong
  word sits on a line of its own. Lengths are JavaScript's, in UTF-16 code
  units, so a character outside the Basic Multilingual Plane counts twice.
 */
module Wrap {
  import opened Strings

  /** The two loop variables of `formatText`. */
  datatype Wrapper = Wrapper(result: string, currentLine: string)

  /** `result += (result ? "\n" : "") + line`: a newline only once the result is non-empty. */
  function PushLine(result: string, line: string): string
  {
    result + (if result != [] then "\n" else []) + line
  }

  /** One iteration of the loop over the words. */
  function Step(w: Wrapper, word: string, maxWidth: int): Wrapper
  {
    if Length(w.currentLine) + Length(word) + 1 <= maxWidth then
      Wrapper(w.result, w.currentLine + (if w.currentLine != [] then " " else []) + word)
    else
      Wrapper(PushLine(w.result, w.currentLine), word)
  }

  /** The loop over the words, in order. */
  function Pack(w: Wrapper, words: seq<string>, maxWidth: int): Wrapper
    decreases |words|
  {
    if words == [] then w else Pack(Step(w, words[0], maxWidth), words[1..], maxWidth)
  }

  function Words(text: string): seq<string>
  {
    Split(text, ' ')
  }

  function Lines(text: string): seq<string>
  {
    Split(text, '\n')
  }

  /** A line respects the width, counted in UTF-16 code units, or is a single word with no space in it. */
  predicate Fits(line: string, maxWidth: int)
  {
    Length(line) <= maxWidth || ' ' !in line
  }

  predicate AllLinesFit(text: string, maxWidth: int)
  {
    forall i :: 0 <= i < |Lines(text)| ==> Fits(Lines(text)[i], maxWidth)
  }

  function FormatText(text: string, maxWidth: int): (r: string)
    ensures text == [] ==> r == []
    ensures AllLinesFit(r, maxWidth)
  {
    var w := Pack(Wrapper([], []), Words(text), maxWidth);
    PackKeepsLinesFit(Wrapper([], []), Words(text), maxWidth);
    if w.currentLine != [] then
      PushLineKeepsLinesFit(w.result, w.currentLine, maxWidth);
      PushLine(w.result, w.currentLine)
    else
      w.result
  }

  // ---------------------------------------------------------------------
  // Every output line fits

  /** Joining a word to a non-empty line adds its length and one for the space. */
  lemma ExtendLength(line: string, word: string)
    ensures Length(line + " " + word) == Length(line) + 1 + Length(word)
  {
    LengthConcat(line + " ", word);
    LengthConcat(line, " ");
    assert Length(" ") == 1;
  }

  lemma PushLineKeepsLinesFit(result: string, line: string, maxWidth: int)
    requires AllLinesFit(result, maxWidth) && Fits(line, maxWidth)
    ensures AllLinesFit(PushLine(result, line), maxWidth)
  {
    SplitPiecesWithin(line, '\n');
    assert AllLinesFit(line, maxWidth) by {
      forall i | 0 <= i < |Lines(line)|
        ensures Fits(Lines(line)[i], maxWidth)
      {
        if ' ' in Lines(line)[i] {
          assert ' ' in line;
          LengthOfPart(Lines(line), '\n', i);
        }
      }
    }
    if result != [] {
      SplitConcat(result, line, '\n');
      assert PushLine(result, line) == result + ['\n'] + line;
      var ls := Lines(PushLine(result, line));
      assert ls == Lines(result) + Lines(line);
      forall i | 0 <= i < |ls|
        ensures Fits(ls[i], maxWidth)
      {
        if i >= |Lines(result)| {
          assert ls[i] == Lines(line)[i - |Lines(result)|];
        }
      }
    } else {
      assert PushLine(result, line) == line;
    }
  }

  lemma {:induction false} PackKeepsLinesFit(w: Wrapper, words: seq<string>, maxWidth: int)
    requires AllLinesFit(w.result, maxWidth) && Fits(w.currentLine, maxWidth)
    requires forall i :: 0 <= i < |words| ==> ' ' !in words[i]
    ensures AllLinesFit(Pack(w, words, maxWidth).result, maxWidth)
    ensures Fits(Pack(w, words, maxWidth).currentLine, maxWidth)
    decreases |words|
  {
    if words != [] {
      if Length(w.currentLine) + Length(words[0]) + 1 > maxWidth {
        PushLineKeepsLinesFit(w.result, w.currentLine, maxWidth);
      } else if w.currentLine != [] {
        ExtendLength(w.currentLine, words[0]);
      } else {
        assert w.currentLine + [] + words[0] == words[0];
      }
      PackKeepsLinesFit(Step(w, words[0], maxWidth), words[1..], maxWidth);
    }
  }

  // ---------------------------------------------------------------------
  // Well-spaced text: no empty word

  /** Every word of `text.split(" ")` is non-empty. */
  predicate WellSpaced(text: string)
  {
    forall i :: 0 <= i < |Words(text)| ==> Words(text)[i] != []
  }

  /** The same condition read off the characters. */
  predicate NoStraySpace(text: string)
  {
    && text != []
    && text[0] != ' '
    && text[|text| - 1] != ' '
    && forall i :: 0 <= i < |text| - 1 ==> !(text[i] == ' ' && text[i + 1] == ' ')
  }

  lemma {:induction false} JoinNoStraySpace(parts: seq<string>)
    requires |parts| >= 1
    requires forall i :: 0 <= i < |parts| ==> parts[i] != [] && ' ' !in parts[i]
    ensures NoStraySpace(Join(parts, ' '))
    decreases |parts|
  {
    if |parts| > 1 {
      JoinNoStraySpace(parts[1..]);
      var p, j := parts[0], Join(parts[1..], ' ');
      var s := p + " " + j;
      assert s == Join(parts, ' ');
      assert p[|p| - 1] in p;
      forall i | 0 <= i < |s| - 1
        ensures !(s[i] == ' ' && s[i + 1] == ' ')
      {
        if i < |p| {
          assert s[i] == p[i] && p[i] in p;
        } else if i > |p| {
          assert s[i] == j[i - |p| - 1] && s[i + 1] == j[i - |p|];
        }
      }
    }
  }

  lemma {:induction false} JoinEmptyPart(parts: seq<string>, k: nat)
    requires k < |parts| && parts[k] == []
    ensures !NoStraySpace(Join(parts, ' '))
    decreases |parts|
  {
    if |parts| > 1 {
      var p, j := parts[0], Join(parts[1..], ' ');
      var s := p + " " + j;
      assert s == Join(parts, ' ');
      if k == 0 {
        assert s[0] == ' ';
      } else {
        JoinEmptyPart(parts[1..], k - 1);
        if j == [] || j[|j| - 1] == ' ' {
          assert s[|s| - 1] == ' ';
        } else if j[0] == ' ' {
          assert s[|p|] == ' ' && s[|p| + 1] == ' ';
        } else {
          var i :| 0 <= i < |j| - 1 && j[i] == ' ' && j[i + 1] == ' ';
          assert s[|p| + 1 + i] == ' ' && s[|p| + 2 + i] == ' ';
        }
      }
    }
  }

  /** No empty word exactly when the text is non-empty, does not start or end with a space and has no doubled space. */
  lemma WellSpacedIff(text: string)
    ensures WellSpaced(text) <==> NoStraySpace(text)
  {
    var parts := Words(text);
    if WellSpaced(text) {
      JoinNoStraySpace(parts);
    } else {
      var k :| 0 <= k < |parts| && parts[k] == [];
      JoinEmptyPart(parts, k);
    }
  }

  // ---------------------------------------------------------------------
  // Round trip: only spaces turn into newlines

  /** `out` is `text` with some of its spaces replaced by newlines. */
  predicate BreaksOnly(out: string, text: string)
  {
    && |out| == |text|
    && forall i :: 0 <= i < |text| ==> out[i] == text[i] || (text[i] == ' ' && out[i] == '\n')
  }

  /** What `formatText` would return if the words ran out now. */
  function Shown(w: Wrapper): string
  {
    PushLine(w.result, w.currentLine)
  }

  predicate RoundTripSoFar(w: Wrapper, done: string)
  {
    w.currentLine != [] && BreaksOnly(Shown(w), done)
  }

  lemma {:induction false} PackRoundTrip(w: Wrapper, words: seq<string>, done: string, maxWidth: int)
    requires RoundTripSoFar(w, done)
    requires |words| >= 1 && forall i :: 0 <= i < |words| ==> words[i] != []
    ensures RoundTripSoFar(Pack(w, words, maxWidth), done + " " + Join(words, ' '))
    decreases |words|
  {
    var x := words[0];
    var w' := Step(w, x, maxWidth);
    var done' := done + " " + x;
    if Length(w.currentLine) + Length(x) + 1 <= maxWidth {
      assert Shown(w') == Shown(w) + " " + x;
    } else {
      assert Shown(w') == Shown(w) + "\n" + x;
    }
    assert RoundTripSoFar(w', done');
    if |words| == 1 {
      assert Pack(w, words, maxWidth) == Pack(w', [], maxWidth) == w';
    } else {
      PackRoundTrip(w', words[1..], done', maxWidth);
      JoinCons(x, words[1..], ' ');
      assert words == [x] + words[1..];
      SpaceAssoc(done, x, Join(words[1..], ' '));
    }
  }

  /** Whatever the width, the first word opens the first line. */
  lemma FirstWordOpens(word: string, maxWidth: int)
    requires word != []
    ensures Step(Wrapper([], []), word, maxWidth) == Wrapper([], word)
  {
  }

  /**
    On well-spaced text `formatText` only turns spaces into newlines; so when
    the text has no newline of its own, turning them back gives the text.
   */
  lemma FormatTextRoundTrip(text: string, maxWidth: int)
    requires WellSpaced(text)
    ensures BreaksOnly(FormatText(text, maxWidth), text)
    ensures '\n' !in text ==> Replace(FormatText(text, maxWidth), '\n', ' ') == text
  {
    var words := Words(text);
    var w1 := Wrapper([], words[0]);
    FirstWordOpens(words[0], maxWidth);
    assert RoundTripSoFar(w1, words[0]);
    var w := Pack(Wrapper([], []), words, maxWidth);
    assert w == Pack(w1, words[1..], maxWidth);
    if |words| == 1 {
      assert RoundTripSoFar(w, text);
    } else {
      PackRoundTrip(w1, words[1..], words[0], maxWidth);
      JoinCons(words[0], words[1..], ' ');
      assert words == [words[0]] + words[1..];
      assert RoundTripSoFar(w, text);
    }
    assert FormatText(text, maxWidth) == Shown(w);
  }

  // ---------------------------------------------------------------------
  // Greedy packing

  function FirstWord(line: string): string
  {
    Words(line)[0]
  }

  /** No break could have been avoided: each line's successor starts with a word that would not have fit on it. */
  predicate Greedy(lines: seq<string>, maxWidth: int)
  {
    forall i :: 0 <= i < |lines| - 1 ==> Length(lines[i]) + 1 + Length(FirstWord(lines[i + 1])) > maxWidth
  }

  /** Each line is well spaced and fits. */
  predicate GoodLines(lines: seq<string>, maxWidth: int)
  {
    forall i :: 0 <= i < |lines| ==> WellSpaced(lines[i]) && Fits(lines[i], maxWidth)
  }

  predicate GreedySoFar(w: Wrapper, done: string, maxWidth: int)
  {
    var lines := Lines(Shown(w));
    && w.currentLine != []
    && '\n' !in w.currentLine
    && Join(lines, ' ') == done
    && GoodLines(lines, maxWidth)
    && Greedy(lines, maxWidth)
  }

  lemma LinesShown(w: Wrapper)
    requires '\n' !in w.currentLine
    ensures Lines(Shown(w)) == (if w.result == [] then [] else Lines(w.result)) + [w.currentLine]
  {
    SplitNoSeparator(w.currentLine, '\n');
    if w.result != [] {
      SplitConcat(w.result, w.currentLine, '\n');
      assert Shown(w) == w.result + ['\n'] + w.currentLine;
    } else {
      assert Shown(w) == w.currentLine;
    }
  }

  lemma SingleWord(word: string)
    requires word != [] && ' ' !in word
    ensures Words(word) == [word]
    ensures WellSpaced(word) && FirstWord(word) == word
  {
    SplitNoSeparator(word, ' ');
  }

  lemma ExtendLine(line: string, word: string)
    requires WellSpaced(line) && word != [] && ' ' !in word
    ensures Words(line + " " + word) == Words(line) + [word]
    ensures WellSpaced(line + " " + word)
    ensures FirstWord(line + " " + word) == FirstWord(line)
  {
    SplitConcat(line, word, ' ');
    SingleWord(word);
  }

  lemma GreedyStart(word: string, maxWidth: int)
    requires word != [] && ' ' !in word && '\n' !in word
    ensures GreedySoFar(Wrapper([], word), word, maxWidth)
  {
    LinesShown(Wrapper([], word));
    SingleWord(word);
    var lines := Lines(Shown(Wrapper([], word)));
    assert lines == [word];
  }

  /** A new last line that is good and opens with the same word keeps the lines good and greedy. */
  lemma ReplaceLastLine(prefix: seq<string>, previous: string, line: string, maxWidth: int)
    requires GoodLines(prefix + [previous], maxWidth) && Greedy(prefix + [previous], maxWidth)
    requires WellSpaced(line) && Fits(line, maxWidth) && FirstWord(line) == FirstWord(previous)
    ensures GoodLines(prefix + [line], maxWidth)
    ensures Greedy(prefix + [line], maxWidth)
  {
    var n := |prefix|;
    var lines, lines' := prefix + [previous], prefix + [line];
    forall i | 0 <= i < n
      ensures lines'[i] == lines[i]
    {
    }
    assert lines'[n] == line;
    assert lines[n] == previous;
  }

  /** A good line whose first word would overflow the last line can follow it. */
  lemma AppendLine(lines: seq<string>, line: string, maxWidth: int)
    requires |lines| >= 1 && GoodLines(lines, maxWidth) && Greedy(lines, maxWidth)
    requires WellSpaced(line) && Fits(line, maxWidth)
    requires Length(lines[|lines| - 1]) + 1 + Length(FirstWord(line)) > maxWidth
    ensures GoodLines(lines + [line], maxWidth)
    ensures Greedy(lines + [line], maxWidth)
  {
    var n := |lines|;
    var lines' := lines + [line];
    forall i | 0 <= i < n
      ensures lines'[i] == lines[i]
    {
    }
    assert lines'[n] == line;
  }

  /** A word added to the last part is added at the end of the joined string. */
  lemma JoinExtendLast(prefix: seq<string>, last: string, x: string)
    ensures Join(prefix + [last + " " + x], ' ') == Join(prefix + [last], ' ') + " " + x
  {
    if prefix == [] {
      assert prefix + [last + " " + x] == [last + " " + x];
      assert prefix + [last] == [last];
    } else {
      JoinSnoc(prefix, last + " " + x, ' ');
      JoinSnoc(prefix, last, ' ');
      var j := Join(prefix, ' ');
      assert j + [' '] + (last + " " + x) == (j + [' '] + last) + " " + x;
    }
  }

  /** The word joins the current line. */
  lemma GreedyExtend(w: Wrapper, x: string, done: string, maxWidth: int)
    requires GreedySoFar(w, done, maxWidth)
    requires x != [] && ' ' !in x && '\n' !in x
    requires Length(w.currentLine) + Length(x) + 1 <= maxWidth
    ensures GreedySoFar(Step(w, x, maxWidth), done + " " + x, maxWidth)
  {
    var cur := w.currentLine;
    var cur' := cur + " " + x;
    var w' := Wrapper(w.result, cur');
    assert Step(w, x, maxWidth) == w';
    var prefix := if w.result == [] then [] else Lines(w.result);
    LinesShown(w);
    assert (prefix + [cur])[|prefix|] == cur;
    LinesShown(w');
    ExtendLine(cur, x);
    ExtendLength(cur, x);
    JoinExtendLast(prefix, cur, x);
    ReplaceLastLine(prefix, cur, cur', maxWidth);
  }

  /** The word does not fit: the current line is pushed and the word opens the next. */
  lemma GreedyBreak(w: Wrapper, x: string, done: string, maxWidth: int)
    requires GreedySoFar(w, done, maxWidth)
    requires x != [] && ' ' !in x && '\n' !in x
    requires Length(w.currentLine) + Length(x) + 1 > maxWidth
    ensures GreedySoFar(Step(w, x, maxWidth), done + " " + x, maxWidth)
  {
    LinesShown(w);
    var lines := Lines(Shown(w));
    var n := |lines|;
    assert lines[n - 1] == w.currentLine;
    var w' := Wrapper(Shown(w), x);
    assert Step(w, x, maxWidth) == w';
    LinesShown(w');
    assert Lines(Shown(w')) == lines + [x];
    SingleWord(x);
    JoinSnoc(lines, x, ' ');
    AppendLine(lines, x, maxWidth);
  }

  lemma SpaceAssoc(a: string, b: string, c: string)
    ensures a + " " + b + " " + c == a + " " + (b + [' '] + c)
  {
  }

  lemma {:induction false} PackGreedy(w: Wrapper, words: seq<string>, done: string, maxWidth: int)
    requires GreedySoFar(w, done, maxWidth)
    requires |words| >= 1
    requires forall i :: 0 <= i < |words| ==> words[i] != [] && ' ' !in words[i] && '\n' !in words[i]
    ensures GreedySoFar(Pack(w, words, maxWidth), done + " " + Join(words, ' '), maxWidth)
    decreases |words|
  {
    var x := words[0];
    var w' := Step(w, x, maxWidth);
    var done' := done + " " + x;
    if Length(w.currentLine) + Length(x) + 1 <= maxWidth {
      GreedyExtend(w, x, done, maxWidth);
    } else {
      GreedyBreak(w, x, done, maxWidth);
    }
    if |words| == 1 {
      assert Pack(w, words, maxWidth) == Pack(w', [], maxWidth) == w';
    } else {
      PackGreedy(w', words[1..], done', maxWidth);
      JoinCons(x, words[1..], ' ');
      assert words == [x] + words[1..];
      SpaceAssoc(done, x, Join(words[1..], ' '));
    }
  }

  /**
    On well-spaced text without newlines, the output lines give back the text
    when joined with spaces; each is well spaced and fits; and each break was
    forced, because the next line's first word would have overflowed.
   */
  lemma FormatTextGreedy(text: string, maxWidth: int)
    requires WellSpaced(text) && '\n' !in text
    ensures Join(Lines(FormatText(text, maxWidth)), ' ') == text
    ensures GoodLines(Lines(FormatText(text, maxWidth)), maxWidth)
    ensures Greedy(Lines(FormatText(text, maxWidth)), maxWidth)
  {
    var words := Words(text);
    SplitPiecesWithin(text, ' ');
    assert forall i :: 0 <= i < |words| ==> '\n' !in words[i];
    var w1 := Wrapper([], words[0]);
    FirstWordOpens(words[0], maxWidth);
    GreedyStart(words[0], maxWidth);
    var w := Pack(Wrapper([], []), words, maxWidth);
    assert w == Pack(w1, words[1..], maxWidth);
    if |words| == 1 {
      assert GreedySoFar(w, text, maxWidth);
    } else {
      PackGreedy(w1, words[1..], words[0], maxWidth);
      JoinCons(words[0], words[1..], ' ');
      assert words == [words[0]] + words[1..];
      assert GreedySoFar(w, text, maxWidth);
    }
    assert FormatText(text, maxWidth) == Shown(w);
  }

}
