/**
  Strings as sequences of characters, with JavaScript's `split` for a
  one-character separator and its inverse, `Join`, and JavaScript's `length`,
  which counts UTF-16 code units.
 */
module Strings {

  /** `parts.join(sep)`: the parts in order, one separator between neighbours. */
  function Join(parts: seq<string>, sep: char): string
  {
    if |parts| == 0 then []
    else if |parts| == 1 then parts[0]
    else parts[0] + [sep] + Join(parts[1..], sep)
  }

  lemma JoinCons(p: string, rest: seq<string>, sep: char)
    requires |rest| >= 1
    ensures Join([p] + rest, sep) == p + [sep] + Join(rest, sep)
  {
    assert ([p] + rest)[1..] == rest;
  }

  /**
    `s.split(sep)`: the maximal separator-free pieces of `s`, in order.
    An empty string yields one empty piece, and a separator at either end or
    next to another one yields an empty piece there.
   */
  function Split(s: string, sep: char): (parts: seq<string>)
    ensures |parts| >= 1
    ensures forall i :: 0 <= i < |parts| ==> sep !in parts[i]
    ensures Join(parts, sep) == s
    decreases |s|
  {
    if s == [] then [[]]
    else
      var rest := Split(s[1..], sep);
      if s[0] == sep then
        JoinCons([], rest, sep);
        [[]] + rest
      else
        var parts := [[s[0]] + rest[0]] + rest[1..];
        assert parts[1..] == rest[1..];
        assert |rest| > 1 ==> Join(rest, sep) == rest[0] + [sep] + Join(rest[1..], sep);
        assert s == [s[0]] + s[1..];
        parts
  }

  /** A string without the separator is a single piece. */
  lemma SplitNoSeparator(s: string, sep: char)
    requires sep !in s
    ensures Split(s, sep) == [s]
    decreases |s|
  {
    if s != [] {
      assert sep !in s[1..];
      SplitNoSeparator(s[1..], sep);
    }
  }

  /** Splitting at one separator splits the two sides independently. */
  lemma {:induction false} SplitConcat(a: string, b: string, sep: char)
    ensures Split(a + [sep] + b, sep) == Split(a, sep) + Split(b, sep)
    decreases |a|
  {
    var s := a + [sep] + b;
    if a == [] {
      assert s[1..] == b;
    } else {
      assert s[1..] == a[1..] + [sep] + b;
      SplitConcat(a[1..], b, sep);
      var A, B := Split(a[1..], sep), Split(b, sep);
      if a[0] == sep {
        assert Split(s, sep) == [[]] + (A + B);
        assert Split(a, sep) == [[]] + A;
      } else {
        var R := A + B;
        assert R[0] == A[0] && R[1..] == A[1..] + B;
        assert Split(s, sep) == [[a[0]] + R[0]] + R[1..];
        assert Split(a, sep) == [[a[0]] + A[0]] + A[1..];
      }
    }
  }

  /** `Join` undoes `Split`, and `Split` undoes `Join` on separator-free parts. */
  lemma {:induction false} SplitJoin(parts: seq<string>, sep: char)
    requires |parts| >= 1
    requires forall i :: 0 <= i < |parts| ==> sep !in parts[i]
    ensures Split(Join(parts, sep), sep) == parts
    decreases |parts|
  {
    if |parts| == 1 {
      SplitNoSeparator(parts[0], sep);
    } else {
      SplitJoin(parts[1..], sep);
      SplitNoSeparator(parts[0], sep);
      SplitConcat(parts[0], Join(parts[1..], sep), sep);
      assert parts == [parts[0]] + parts[1..];
    }
  }

  /** Every piece is no longer than the whole and holds only characters of it. */
  lemma {:induction false} SplitPiecesWithin(s: string, sep: char)
    ensures forall i :: 0 <= i < |Split(s, sep)| ==> |Split(s, sep)[i]| <= |s|
    ensures forall i, c :: 0 <= i < |Split(s, sep)| && c in Split(s, sep)[i] ==> c in s
    decreases |s|
  {
    if s != [] {
      SplitPiecesWithin(s[1..], sep);
      var rest := Split(s[1..], sep);
      assert forall c :: c in s[1..] ==> c in s;
      if s[0] != sep {
        assert forall c :: c in [s[0]] + rest[0] ==> c == s[0] || c in rest[0];
      }
    }
  }

  /** `Join` with one more part at the end. */
  lemma {:induction false} JoinSnoc(parts: seq<string>, p: string, sep: char)
    requires |parts| >= 1
    ensures Join(parts + [p], sep) == Join(parts, sep) + [sep] + p
    decreases |parts|
  {
    if |parts| == 1 {
      assert parts + [p] == [parts[0], p];
      assert Join([p], sep) == p;
    } else {
      assert (parts + [p])[1..] == parts[1..] + [p];
      JoinSnoc(parts[1..], p, sep);
    }
  }

  /** `s.replaceAll(from, to)` for single characters. */
  function Replace(s: string, from: char, to: char): string
  {
    seq(|s|, i requires 0 <= i < |s| => if s[i] == from then to else s[i])
  }

  /** How many UTF-16 code units encode `c`: two for a character outside the Basic Multilingual Plane. */
  function CodeUnits(c: char): nat
  {
    if c as int < 0x1_0000 then 1 else 2
  }

  /** JavaScript's `s.length`: the number of UTF-16 code units of `s`, not of characters. */
  function Length(s: string): nat
    decreases |s|
  {
    if s == [] then 0 else CodeUnits(s[0]) + Length(s[1..])
  }

  lemma {:induction false} LengthConcat(a: string, b: string)
    ensures Length(a + b) == Length(a) + Length(b)
    decreases |a|
  {
    if a == [] {
      assert a + b == b;
    } else {
      assert (a + b)[0] == a[0] && (a + b)[1..] == a[1..] + b;
      LengthConcat(a[1..], b);
    }
  }

  /** A part is no longer than the parts joined. */
  lemma {:induction false} LengthOfPart(parts: seq<string>, sep: char, i: nat)
    requires i < |parts|
    ensures Length(parts[i]) <= Length(Join(parts, sep))
    decreases |parts|
  {
    if |parts| > 1 {
      LengthConcat(parts[0] + [sep], Join(parts[1..], sep));
      LengthConcat(parts[0], [sep]);
      if i > 0 {
        LengthOfPart(parts[1..], sep, i - 1);
      }
    }
  }

}
