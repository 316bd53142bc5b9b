/** Edge cases of `formatText`, worked through the loop. */
module WrapExamples {
  import opened Strings
  import opened Wrap

  /** A word longer than the width is kept whole on its own line. */
  lemma FormatTextLongWord()
    ensures FormatText("ab", 1) == "ab"
  {
    SplitNoSeparator("ab", ' ');
    var w0 := Wrapper([], []);
    assert Pack(w0, ["ab"], 1) == Pack(Step(w0, "ab", 1), [], 1);
    assert Step(w0, "ab", 1) == Wrapper([], "ab");
  }

  lemma DoubleSpaceWords()
    ensures Words("a  b") == ["a", "", "b"]
  {
    assert "a  b" == "a" + [' '] + ([] + [' '] + "b");
    SplitConcat("a", [] + [' '] + "b", ' ');
    SplitConcat([], "b", ' ');
    SplitNoSeparator("a", ' ');
    SplitNoSeparator("b", ' ');
  }

  /** The loop over the three words: the empty word pushes "a", and "b" pushes the empty line. */
  lemma PackDoubleSpace()
    ensures Pack(Wrapper([], []), ["a", "", "b"], 1) == Wrapper("a\n", "b")
  {
    var w1 := Wrapper([], "a");
    var w2 := Wrapper("a", []);
    var w3 := Wrapper("a\n", "b");
    assert Step(Wrapper([], []), "a", 1) == w1;
    assert Step(w1, "", 1) == w2;
    assert Step(w2, "b", 1) == w3;
    assert Pack(w2, ["b"], 1) == w3;
    assert Pack(w1, ["", "b"], 1) == w3;
  }

  /** A double space where a line is full leaves an empty line, so the round trip needs well-spaced text. */
  lemma FormatTextDoubleSpace()
    ensures FormatText("a  b", 1) == "a\n\nb"
    ensures !WellSpaced("a  b")
  {
    DoubleSpaceWords();
    PackDoubleSpace();
    assert PushLine("a\n", "b") == "a\n\nb";
    assert Words("a  b")[1] == [];
  }


  lemma EmojiWords()
    ensures Words("\U{1F600} x") == ["\U{1F600}", "x"]
  {
    assert "\U{1F600} x" == "\U{1F600}" + [' '] + "x";
    SplitConcat("\U{1F600}", "x", ' ');
    SplitNoSeparator("\U{1F600}", ' ');
    SplitNoSeparator("x", ' ');
  }

  /**
    Widths count UTF-16 code units: the emoji is two, so with the space and "x"
    the line would need four columns, and at width 3 "x" moves to a new line,
    though the line has only three characters.
   */
  lemma FormatTextEmoji()
    ensures Length("\U{1F600} x") == 4 && |"\U{1F600} x"| == 3
    ensures FormatText("\U{1F600} x", 3) == "\U{1F600}\nx"
  {
    EmojiWords();
    var w1 := Wrapper([], "\U{1F600}");
    var w2 := Wrapper("\U{1F600}", "x");
    assert Length("\U{1F600}") == 2;
    assert Step(Wrapper([], []), "\U{1F600}", 3) == w1;
    assert Step(w1, "x", 3) == w2;
    assert Pack(w1, ["x"], 3) == w2;
    assert Pack(Wrapper([], []), ["\U{1F600}", "x"], 3) == w2;
    assert PushLine(w2.result, w2.currentLine) == "\U{1F600}\nx";
    LengthConcat("\U{1F600}", " x");
  }

}
