/**
 * Per-page selection (main.py lines 62-70): the indices of the two
 * best-scoring paragraphs of a page, and the display title of a paragraph.
 */
module Selector {
  import opened Wrappers

  /** How many paragraphs of a page are kept. */
  const PerPage: nat := 2

  /**
   * The index of a highest score among `scores[..n]`, not counting index
   * `skip`; `None` when there is no other index to choose.
   */
  function BestIndex(scores: seq<int>, n: nat, skip: int): (r: Option<nat>)
    requires n <= |scores|
    ensures r.None? <==> n == 0 || (n == 1 && skip == 0)
    ensures r.Some? ==> r.value < n && r.value != skip
    ensures r.Some? ==> forall j :: 0 <= j < n && j != skip ==> scores[j] <= scores[r.value]
  {
    if n == 0 then None
    else
      var m := BestIndex(scores, n - 1, skip);
      if n - 1 == skip then m
      else if m.None? || scores[n - 1] > scores[m.value] then Some(n - 1)
      else m
  }

  /**
   * `similarities.argsort(descending=True)[:2]`: the indices of the (at most)
   * two best scores, best first. The contract leaves the order among equal
   * scores open, as torch's sort does not promise one.
   */
  function TopTwo(scores: seq<int>): (r: seq<nat>)
    ensures |r| == if |scores| < PerPage then |scores| else PerPage
    ensures forall k :: 0 <= k < |r| ==> r[k] < |scores|
    ensures |r| == 2 ==> r[0] != r[1] && scores[r[0]] >= scores[r[1]]
    ensures forall k, j :: 0 <= k < |r| && 0 <= j < |scores| && j !in r ==> scores[j] <= scores[r[k]]
  {
    var first := BestIndex(scores, |scores|, -1);
    if first.None? then []
    else
      var second := BestIndex(scores, |scores|, first.value);
      if second.None? then [first.value] else [first.value, second.value]
  }

  /** How many characters of a paragraph a title keeps. */
  const TitleWidth: nat := 80

  /** What a title ends with when the paragraph was cut. */
  const Ellipsis: string := "..."

  /**
   * `para_text[:80] + ("..." if len(para_text) > 80 else "")`: a title keeps
   * the paragraph's first 80 characters; it is the paragraph itself when that
   * has at most 80, and otherwise 83 characters ending in "...".
   */
  function Title(text: string): (t: string)
    ensures Min(TitleWidth, |text|) <= |t| <= TitleWidth + |Ellipsis|
    ensures t[..Min(TitleWidth, |text|)] == text[..Min(TitleWidth, |text|)]
    ensures |text| <= TitleWidth ==> t == text
    ensures |text| > TitleWidth ==> |t| == TitleWidth + |Ellipsis| && t[TitleWidth..] == Ellipsis
  {
    text[..Min(TitleWidth, |text|)] + (if |text| > TitleWidth then Ellipsis else "")
  }
}
