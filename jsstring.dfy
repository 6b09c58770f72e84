/**
 * The JavaScript string operations the two middlewares rely on:
 * `String.prototype.startsWith`, `String.prototype.split` with a
 * one-character separator and no limit, and indexing its result.
 */
module JsString {
  import opened Wrappers

  /** `s.startsWith(prefix)`: a plain, character-wise prefix test. */
  predicate StartsWith(s: string, prefix: string)
  {
    |prefix| <= |s| && s[..|prefix|] == prefix
  }

  /** `pieces.join(sep)`, the inverse of `Split`. */
  function Join(pieces: seq<string>, sep: char): string
    requires |pieces| >= 1
  {
    if |pieces| == 1 then pieces[0] else pieces[0] + [sep] + Join(pieces[1..], sep)
  }

  /**
   * `s.split(sep)`: the maximal separator-free pieces between occurrences
   * of `sep`, empty pieces included ("a  b" gives "a", "", "b"; "" gives "").
   */
  function Split(s: string, sep: char): (pieces: seq<string>)
    ensures |pieces| >= 1
    ensures forall i :: 0 <= i < |pieces| ==> sep !in pieces[i]
    ensures Join(pieces, sep) == s
    decreases |s|
  {
    if |s| == 0 then [""]
    else
      var rest := Split(s[1..], sep);
      if s[0] == sep then
        assert ([""] + rest)[1..] == rest;
        [""] + rest
      else
        var first := [s[0]] + rest[0];
        assert s == [s[0]] + s[1..];
        assert |rest| > 1 ==> ([first] + rest[1..])[1..] == rest[1..];
        [first] + rest[1..]
  }

  /** `s.split(" ")[1]`: the second piece, or `undefined` when there is none. */
  function SecondPiece(s: string): Option<string>
  {
    var pieces := Split(s, ' ');
    if |pieces| > 1 then Some(pieces[1]) else None
  }

  /** A separator-free string is a single piece. */
  lemma {:induction false} SplitNoSeparator(w: string, sep: char)
    requires sep !in w
    ensures Split(w, sep) == [w]
    decreases |w|
  {
    if |w| > 0 {
      SplitNoSeparator(w[1..], sep);
      assert [w[0]] + w[1..] == w;
    }
  }

  /** Splitting peels off everything up to the first separator as one piece. */
  lemma {:induction false} SplitAfterWord(w: string, sep: char, t: string)
    requires sep !in w
    ensures Split(w + [sep] + t, sep) == [w] + Split(t, sep)
    decreases |w|
  {
    var s := w + [sep] + t;
    if |w| == 0 {
      assert s[0] == sep && s[1..] == t;
    } else {
      assert s[0] == w[0] && s[1..] == w[1..] + [sep] + t;
      SplitAfterWord(w[1..], sep, t);
      assert [w[0]] + w[1..] == w;
    }
  }

  /** `Split` is the exact inverse of `Join` on separator-free pieces. */
  lemma {:induction false} SplitJoin(pieces: seq<string>, sep: char)
    requires |pieces| >= 1
    requires forall i :: 0 <= i < |pieces| ==> sep !in pieces[i]
    ensures Split(Join(pieces, sep), sep) == pieces
    decreases |pieces|
  {
    if |pieces| == 1 {
      SplitNoSeparator(pieces[0], sep);
    } else {
      SplitJoin(pieces[1..], sep);
      SplitAfterWord(pieces[0], sep, Join(pieces[1..], sep));
      assert [pieces[0]] + pieces[1..] == pieces;
    }
  }

  /** A string has a second piece exactly when it contains a space. */
  lemma SecondPieceAbsent(s: string)
    ensures SecondPiece(s).None? <==> ' ' !in s
  {
    if ' ' !in s {
      SplitNoSeparator(s, ' ');
    }
  }

  /**
   * The second piece is the text between the first space and the next
   * space (or the end), whatever the first word is.
   */
  lemma SecondPieceOf(w: string, t: string, rest: string)
    requires ' ' !in w && ' ' !in t
    requires rest == [] || rest[0] == ' '
    ensures SecondPiece(w + [' '] + t + rest) == Some(t)
  {
    assert w + [' '] + t + rest == w + [' '] + (t + rest);
    SplitAfterWord(w, ' ', t + rest);
    if rest == [] {
      assert t + rest == t;
      SplitNoSeparator(t, ' ');
    } else {
      assert t + rest == t + [' '] + rest[1..];
      SplitAfterWord(t, ' ', rest[1..]);
    }
  }

  /**
   * A string whose `split(" ")[1]` is missing or empty: it has no space,
   * or its first space is followed by another space or ends the string.
   */
  ghost predicate LacksToken(s: string)
  {
    ' ' !in s ||
    exists w: string, rest: string :: FirstSpaceSplit(s, w, rest) && (rest == [] || rest[0] == ' ')
  }

  /** `w` is the text before the first space of `s` and `rest` the text after it. */
  ghost predicate FirstSpaceSplit(s: string, w: string, rest: string)
  {
    ' ' !in w && s == w + [' '] + rest
  }

  /** An empty second piece means the first space is followed by another or ends the string. */
  lemma EmptySecondPieceShape(s: string)
    requires SecondPiece(s) == Some("")
    ensures LacksToken(s)
  {
    var pieces := Split(s, ' ');
    var w, rest := pieces[0], Join(pieces[1..], ' ');
    assert FirstSpaceSplit(s, w, rest);
    assert rest == [] || rest[0] == ' ';
  }

  /** `split(" ")[1]` is undefined or empty exactly for the strings `LacksToken` describes. */
  lemma NoTokenPiece(s: string)
    ensures (SecondPiece(s).None? || SecondPiece(s) == Some("")) <==> LacksToken(s)
  {
    SecondPieceAbsent(s);
    if SecondPiece(s) == Some("") {
      EmptySecondPieceShape(s);
    } else if ' ' in s && LacksToken(s) {
      var w: string, rest: string :| FirstSpaceSplit(s, w, rest) && (rest == [] || rest[0] == ' ');
      assert s == w + [' '] + "" + rest;
      SecondPieceOf(w, "", rest);
    }
  }

  /** The last piece is whatever follows the last separator. */
  lemma {:induction false} SplitLastPiece(s: string, sep: char, t: string)
    requires sep !in t
    ensures var pieces := Split(s + [sep] + t, sep);
      |pieces| >= 2 && pieces[|pieces| - 1] == t
    decreases |s|
  {
    var x := s + [sep] + t;
    if |s| == 0 {
      assert x[0] == sep && x[1..] == t;
      SplitNoSeparator(t, sep);
    } else {
      assert x[1..] == s[1..] + [sep] + t;
      SplitLastPiece(s[1..], sep, t);
    }
  }
}
