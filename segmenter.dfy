/**
 * Turning one page's text into candidate paragraphs (main.py lines 49-56): a
 * page whose stripped text is shorter than 100 characters is skipped; any
 * other page is split on blank lines, each chunk is stripped, and chunks of 40
 * characters or fewer are dropped, in order of appearance.
 */
module Segmenter {
  import opened Wrappers
  import opened Text

  /** A page whose stripped text is shorter than this is skipped. */
  const MinPageText: nat := 100

  /** A paragraph must be longer than this, once stripped. */
  const MinParagraph: nat := 40

  /** `[p.strip() for p in chunks if len(p.strip()) > 40]`. */
  function Passages(chunks: seq<string>): (r: seq<string>)
    ensures |r| <= |chunks|
    ensures forall p :: p in r ==> IsStripped(p) && |p| > MinParagraph
  {
    if chunks == [] then []
    else
      var p := Strip(chunks[0]);
      (if |p| > MinParagraph then [p] else []) + Passages(chunks[1..])
  }

  /**
   * The filter keeps order: the paragraphs of two runs of chunks are the
   * paragraphs of the first run followed by those of the second.
   */
  lemma {:induction false} PassagesAppend(a: seq<string>, b: seq<string>)
    ensures Passages(a + b) == Passages(a) + Passages(b)
  {
    if a == [] {
      assert a + b == b;
    } else {
      var p := Strip(a[0]);
      var head := if |p| > MinParagraph then [p] else [];
      assert (a + b)[0] == a[0];
      assert (a + b)[1..] == a[1..] + b;
      assert Passages(a + b) == head + Passages(a[1..] + b);
      assert Passages(a) == head + Passages(a[1..]);
      PassagesAppend(a[1..], b);
      AppendAssoc(head, Passages(a[1..]), Passages(b));
    }
  }

  /** A string is a paragraph exactly when it is the stripped form, longer than 40, of some chunk. */
  lemma {:induction false} PassagesMembership(chunks: seq<string>, p: string)
    ensures p in Passages(chunks) <==>
      exists k :: 0 <= k < |chunks| && Strip(chunks[k]) == p && |p| > MinParagraph
  {
    if chunks != [] {
      PassagesMembership(chunks[1..], p);
      if p in Passages(chunks[1..]) {
        var k :| 0 <= k < |chunks[1..]| && Strip(chunks[1..][k]) == p && |p| > MinParagraph;
        assert chunks[k + 1] == chunks[1..][k];
      }
      forall k | 1 <= k < |chunks| && Strip(chunks[k]) == p && |p| > MinParagraph
        ensures p in Passages(chunks[1..])
      {
        assert chunks[1..][k - 1] == chunks[k];
      }
    }
  }

  /** The paragraphs of one page's text, or none when the page is skipped. */
  function Paragraphs(text: string): (r: seq<string>)
    ensures |Strip(text)| < MinPageText ==> r == []
    ensures forall p :: p in r ==> IsStripped(p) && |p| > MinParagraph
  {
    if |Strip(text)| < MinPageText then [] else Passages(Split(text))
  }

  /** Stripping a chunk that holds no separator leaves a paragraph that holds none. */
  lemma StripKeepsNoSeparator(s: string)
    requires NoSeparator(s)
    ensures NoSeparator(Strip(s))
  {
    var r := Strip(s);
    var i := StartOfText(s);
    forall k | 0 <= k < |r| - 1
      ensures !(r[k] == '\n' && r[k + 1] == '\n')
    {
      assert r[k] == s[i + k] && r[k + 1] == s[i + k + 1];
    }
  }

  /** No paragraph of a page holds a blank line. */
  lemma ParagraphsHaveNoSeparator(text: string)
    ensures forall p :: p in Paragraphs(text) ==> NoSeparator(p)
  {
    if |Strip(text)| >= MinPageText {
      var chunks := Split(text);
      SplitPieces(text);
      forall p | p in Paragraphs(text) ensures NoSeparator(p) {
        PassagesMembership(chunks, p);
        var k :| 0 <= k < |chunks| && Strip(chunks[k]) == p && |p| > MinParagraph;
        StripKeepsNoSeparator(chunks[k]);
      }
    }
  }
}
