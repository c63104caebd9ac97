/**
 * The two string operations the paragraph segmentation is built from:
 * Python's `str.strip()` with no argument, and `str.split("\n\n")`.
 */
module Text {

  /** The characters Python's `str.isspace` accepts, which `str.strip()` removes. */
  predicate IsSpace(c: char) {
    || ('\t' <= c <= '\r')
    || ('\U{1C}' <= c <= '\U{1F}')
    || c == ' '
    || c == '\U{85}'
    || c == '\U{A0}'
    || c == '\U{1680}'
    || ('\U{2000}' <= c <= '\U{200A}')
    || c == '\U{2028}'
    || c == '\U{2029}'
    || c == '\U{202F}'
    || c == '\U{205F}'
    || c == '\U{3000}'
  }

  /** A string with no whitespace at either end: what `strip()` leaves. */
  predicate IsStripped(s: string) {
    |s| == 0 || (!IsSpace(s[0]) && !IsSpace(s[|s| - 1]))
  }

  /** The index of the first non-whitespace character, or `|s|` when there is none. */
  function StartOfText(s: string): (i: nat)
    ensures i <= |s|
    ensures forall k :: 0 <= k < i ==> IsSpace(s[k])
    ensures i < |s| ==> !IsSpace(s[i])
    decreases |s|
  {
    if |s| > 0 && IsSpace(s[0]) then 1 + StartOfText(s[1..]) else 0
  }

  /** One past the index of the last non-whitespace character, or 0 when there is none. */
  function EndOfText(s: string): (j: nat)
    ensures j <= |s|
    ensures forall k :: j <= k < |s| ==> IsSpace(s[k])
    ensures j > 0 ==> !IsSpace(s[j - 1])
    decreases |s|
  {
    if |s| > 0 && IsSpace(s[|s| - 1]) then EndOfText(s[..|s| - 1]) else |s|
  }

  /**
   * Python's `s.strip()`: the result is the slice of `s` that starts at its
   * first non-whitespace character, with nothing but whitespace after it, and
   * it is itself stripped (empty exactly when `s` is all whitespace).
   */
  function Strip(s: string): (r: string)
    ensures IsStripped(r)
    ensures StartOfText(s) + |r| <= |s|
    ensures r == s[StartOfText(s)..StartOfText(s) + |r|]
    ensures forall k :: StartOfText(s) + |r| <= k < |s| ==> IsSpace(s[k])
    ensures |r| == 0 <==> forall k :: 0 <= k < |s| ==> IsSpace(s[k])
  {
    var i := StartOfText(s);
    var j := EndOfText(s);
    if j <= i then "" else s[i..j]
  }

  /** A string that is already stripped is left alone by `strip()`. */
  lemma {:induction false} StripFixesStripped(s: string)
    requires IsStripped(s)
    ensures Strip(s) == s
  {
    assert StartOfText(s) == 0;
    assert EndOfText(s) == |s|;
  }

  /** `strip()` is idempotent. */
  lemma StripIdempotent(s: string)
    ensures Strip(Strip(s)) == Strip(s)
  {
    StripFixesStripped(Strip(s));
  }

  /** The paragraph separator the page text is split on. */
  const Separator: string := "\n\n"

  /** No piece of a split holds the separator. */
  predicate NoSeparator(p: string) {
    forall k :: 0 <= k < |p| - 1 ==> !(p[k] == '\n' && p[k + 1] == '\n')
  }

  /**
   * Python's `s.split("\n\n")`: cut at every occurrence of the separator,
   * scanning from the left without overlap (`"a\n\n\nb"` gives `"a"` and
   * `"\nb"`). There is always at least one piece; `SplitPieces` and
   * `JoinSplit` state what the pieces are.
   */
  function Split(s: string): (r: seq<string>)
    ensures |r| >= 1
    decreases |s|
  {
    if |s| < 2 then [s]
    else if s[0] == '\n' && s[1] == '\n' then [""] + Split(s[2..])
    else
      var rest := Split(s[1..]);
      [[s[0]] + rest[0]] + rest[1..]
  }

  /**
   * What the pieces of a split look like: none holds the separator, and none
   * but the last ends in a newline.
   */
  predicate WellCut(pieces: seq<string>) {
    && (forall i :: 0 <= i < |pieces| ==> NoSeparator(pieces[i]))
    && (forall i :: 0 <= i < |pieces| - 1 ==> |pieces[i]| == 0 || pieces[i][|pieces[i]| - 1] != '\n')
  }

  /**
   * The pieces of a split: the first is a prefix of the text, none holds the
   * separator, and none but the last ends in a newline, so every cut is made
   * at the leftmost separator that is left.
   */
  lemma {:induction false} SplitPieces(s: string)
    ensures |Split(s)[0]| <= |s| && Split(s)[0] == s[..|Split(s)[0]|]
    ensures WellCut(Split(s))
    decreases |s|
  {
    if |s| < 2 {
      assert Split(s) == [s];
    } else if s[0] == '\n' && s[1] == '\n' {
      SplitPieces(s[2..]);
      var rest := Split(s[2..]);
      assert Split(s) == [""] + rest;
      assert NoSeparator("");
      WellCutCons("", rest);
    } else {
      SplitPieces(s[1..]);
      SplitPiecesCharStep(s);
    }
  }

  /** Putting a piece in front of well-cut pieces. */
  lemma WellCutCons(first: string, rest: seq<string>)
    requires WellCut(rest) && |rest| >= 1
    requires NoSeparator(first) && (|first| == 0 || first[|first| - 1] != '\n')
    ensures WellCut([first] + rest)
  {
    var r := [first] + rest;
    forall i | 1 <= i < |r| ensures r[i] == rest[i - 1] { }
  }

  /** Replacing the first of well-cut pieces. */
  lemma WellCutReplaceFirst(first: string, rest: seq<string>)
    requires WellCut(rest) && |rest| >= 1
    requires NoSeparator(first)
    requires |rest| > 1 ==> |first| == 0 || first[|first| - 1] != '\n'
    ensures WellCut([first] + rest[1..])
  {
    var r := [first] + rest[1..];
    forall i | 1 <= i < |r| ensures r[i] == rest[i] { }
  }

  /** A split whose first piece is empty and is not the only one starts at a separator. */
  lemma EmptyFirstPiece(t: string)
    requires |Split(t)| > 1 && |Split(t)[0]| == 0
    ensures |t| >= 2 && t[0] == '\n' && t[1] == '\n'
  {
  }

  /** The step of `SplitPieces` where the first character belongs to the first piece. */
  lemma SplitPiecesCharStep(s: string)
    requires |s| >= 2 && !(s[0] == '\n' && s[1] == '\n')
    requires |Split(s[1..])[0]| <= |s| - 1 && Split(s[1..])[0] == s[1..][..|Split(s[1..])[0]|]
    requires WellCut(Split(s[1..]))
    ensures |Split(s)[0]| <= |s| && Split(s)[0] == s[..|Split(s)[0]|]
    ensures WellCut(Split(s))
  {
    var rest := Split(s[1..]);
    var first := [s[0]] + rest[0];
    assert Split(s) == [first] + rest[1..];
    assert |rest[0]| > 0 ==> rest[0][0] == s[1];
    ConsNoSeparator(s[0], rest[0]);
    assert first == s[..|first|];
    if |rest| > 1 && |rest[0]| == 0 {
      // the text after the first character starts with the separator
      EmptyFirstPiece(s[1..]);
    }
    WellCutReplaceFirst(first, rest);
  }

  /** Putting a character in front of a piece does not create a separator unless both are newlines. */
  lemma ConsNoSeparator(c: char, p: string)
    requires NoSeparator(p)
    requires |p| > 0 ==> !(c == '\n' && p[0] == '\n')
    ensures NoSeparator([c] + p)
  {
    var q := [c] + p;
    forall k | 0 <= k < |q| - 1
      ensures !(q[k] == '\n' && q[k + 1] == '\n')
    {
      if k > 0 {
        assert q[k] == p[k - 1] && q[k + 1] == p[k];
      }
    }
  }

  /** Python's `"\n\n".join(pieces)`. */
  function Join(pieces: seq<string>): string {
    if |pieces| == 0 then ""
    else if |pieces| == 1 then pieces[0]
    else pieces[0] + Separator + Join(pieces[1..])
  }

  /** Joining a non-empty tail puts one separator after the head. */
  lemma JoinCons(p: string, rest: seq<string>)
    requires |rest| >= 1
    ensures Join([p] + rest) == p + Separator + Join(rest)
  {
    assert ([p] + rest)[1..] == rest;
  }

  /** The step of `JoinSplit` where the text starts with the separator. */
  lemma JoinSplitSeparatorStep(s: string)
    requires |s| >= 2 && s[0] == '\n' && s[1] == '\n'
    requires Join(Split(s[2..])) == s[2..]
    ensures Join(Split(s)) == s
  {
    var rest := Split(s[2..]);
    assert Split(s) == [""] + rest;
    JoinCons("", rest);
    assert s == Separator + s[2..];
  }

  /** Regrouping a four-way concatenation. */
  lemma Regroup<T>(a: seq<T>, b: seq<T>, c: seq<T>, d: seq<T>)
    ensures a + b + c + d == a + (b + c + d)
  {
  }

  /** The step of `JoinSplit` where the first character belongs to the first piece. */
  lemma JoinSplitCharStep(s: string)
    requires |s| >= 2 && !(s[0] == '\n' && s[1] == '\n')
    requires Join(Split(s[1..])) == s[1..]
    ensures Join(Split(s)) == s
  {
    var rest := Split(s[1..]);
    var first := [s[0]] + rest[0];
    assert Split(s) == [first] + rest[1..];
    if |rest| == 1 {
      assert Join(Split(s)) == first;
      assert s == [s[0]] + s[1..];
    } else {
      assert rest == [rest[0]] + rest[1..];
      var tail := Join(rest[1..]);
      JoinCons(rest[0], rest[1..]);
      JoinCons(first, rest[1..]);
      Regroup([s[0]], rest[0], Separator, tail);
      assert s == [s[0]] + s[1..];
    }
  }

  /** Splitting loses nothing: joining the pieces back gives the text. */
  lemma {:induction false} JoinSplit(s: string)
    ensures Join(Split(s)) == s
    decreases |s|
  {
    if |s| < 2 {
      assert Split(s) == [s];
    } else if s[0] == '\n' && s[1] == '\n' {
      JoinSplit(s[2..]);
      JoinSplitSeparatorStep(s);
    } else {
      JoinSplit(s[1..]);
      JoinSplitCharStep(s);
    }
  }
}
