/**
 * The global ranking (main.py lines 81-99): the section records are sorted,
 * stably and in descending order, by a key looked up in the detail records;
 * the first five are given their ranks 1 to 5; and the detail records are
 * filtered down to the (document, page) pairs of those five.
 */
module Ranker {
  import opened Wrappers

  /** A (document, page number) pair: what a section and a detail record are matched on. */
  type PageKey = (string, nat)

  /** An entry of `extracted_sections`. */
  datatype Section = Section(document: string, sectionTitle: string, importanceRank: nat, pageNumber: nat)
  {
    function Key(): PageKey { (document, pageNumber) }
  }

  /** An entry of `subsection_analysis`. */
  datatype Detail = Detail(document: string, refinedText: string, pageNumber: nat)
  {
    function Key(): PageKey { (document, pageNumber) }
  }

  /** How many sections survive the global ranking. */
  const TopK: nat := 5

  /** The index of the first detail record with the given key, as `next(...)` scans for it. */
  function FirstDetail(details: seq<Detail>, key: PageKey): (r: Option<nat>)
    ensures r.None? <==> forall j :: 0 <= j < |details| ==> details[j].Key() != key
    ensures r.Some? ==> r.value < |details| && details[r.value].Key() == key
    ensures r.Some? ==> forall j :: 0 <= j < r.value ==> details[j].Key() != key
  {
    if details == [] then None
    else if details[0].Key() == key then Some(0)
    else
      match FirstDetail(details[1..], key)
      case None => None
      case Some(i) => Some(i + 1)
  }

  /**
   * The sort key of a section (main.py lines 83-86): the length of the text
   * of the FIRST detail record with the section's (document, page), which is
   * not necessarily the section's own paragraph. `None` where Python's
   * `next` would raise `StopIteration`.
   */
  function SortKey(details: seq<Detail>, s: Section): (r: Option<nat>)
    ensures r.None? <==> forall j :: 0 <= j < |details| ==> details[j].Key() != s.Key()
    ensures r.Some? ==> exists j ::
      && 0 <= j < |details| && details[j].Key() == s.Key()
      && r.value == |details[j].refinedText|
      && (forall i :: 0 <= i < j ==> details[i].Key() != s.Key())
  {
    match FirstDetail(details, s.Key())
    case None => None
    case Some(j) => Some(|details[j].refinedText|)
  }

  /**
   * The keys of all sections, computed before sorting as `list.sort` does;
   * `None` as soon as one section has no detail record.
   */
  function SortKeys(details: seq<Detail>, sections: seq<Section>): (r: Option<seq<nat>>)
    ensures r.Some? <==> forall i :: 0 <= i < |sections| ==> SortKey(details, sections[i]).Some?
    ensures r.Some? ==> |r.value| == |sections|
    ensures r.Some? ==> forall i :: 0 <= i < |sections| ==> SortKey(details, sections[i]) == Some(r.value[i])
  {
    if forall i :: 0 <= i < |sections| ==> SortKey(details, sections[i]).Some? then
      Some(seq(|sections|, i requires 0 <= i < |sections| && SortKey(details, sections[i]).Some? =>
        SortKey(details, sections[i]).value))
    else None
  }

  /** Both sections of one page get the same key, whatever their own paragraphs. */
  lemma SamePageSameKey(details: seq<Detail>, s: Section, t: Section)
    requires s.Key() == t.Key()
    ensures SortKey(details, s) == SortKey(details, t)
  {
  }

  /**
   * Where index `i` of the input goes before index `j` in a stable sort
   * with `reverse=True`: a larger key first, and on equal keys the earlier
   * index first.
   */
  predicate Precedes(keys: seq<int>, i: nat, j: nat)
    requires i < |keys| && j < |keys|
  {
    keys[i] > keys[j] || (keys[i] == keys[j] && i < j)
  }

  /** `order` lists indices of `keys` in the order of a stable descending sort. */
  predicate StablyDescending(keys: seq<int>, order: seq<nat>) {
    && (forall k :: 0 <= k < |order| ==> order[k] < |keys|)
    && (forall k, l :: 0 <= k < l < |order| ==> Precedes(keys, order[k], order[l]))
  }

  /** `order` holds each of the indices `0 .. n - 1`, and only those. */
  predicate IsIndexPermutation(order: seq<nat>, n: nat) {
    && |order| == n
    && (forall k :: 0 <= k < |order| ==> order[k] < n)
    && (forall v :: 0 <= v < n ==> v in order)
  }

  /**
   * `sections.sort(key=..., reverse=True)`: the sorted sections are the input
   * sections taken in `order`, a permutation of the indices that puts larger
   * keys first and keeps the input order among equal keys.
   */
  method SortByKeyDescending(sections: seq<Section>, keys: seq<int>)
    returns (sorted: seq<Section>, order: seq<nat>)
    requires |keys| == |sections|
    ensures IsIndexPermutation(order, |sections|)
    ensures StablyDescending(keys, order)
    ensures |sorted| == |sections|
    ensures forall k :: 0 <= k < |sorted| ==> sorted[k] == sections[order[k]]
    ensures multiset(sorted) == multiset(sections)
  {
    sorted, order := [], [];
    var i := 0;
    while i < |sections|
      invariant 0 <= i <= |sections|
      invariant |sorted| == i
      invariant IsIndexPermutation(order, i)
      invariant StablyDescending(keys, order)
      invariant forall k :: 0 <= k < i ==> sorted[k] == sections[order[k]]
      invariant multiset(sorted) == multiset(sections[..i])
    {
      sorted, order := InsertNext(sections, keys, sorted, order, i);
      i := i + 1;
    }
    assert sections[..i] == sections;
  }

  /**
   * One step of the sort: section `i` goes after every sorted section whose
   * key is at least its key, and before the first whose key is smaller.
   */
  method InsertNext(sections: seq<Section>, keys: seq<int>, sorted: seq<Section>, order: seq<nat>, i: nat)
    returns (sorted': seq<Section>, order': seq<nat>)
    requires |keys| == |sections| && i < |sections| && |sorted| == i
    requires IsIndexPermutation(order, i) && StablyDescending(keys, order)
    requires forall k :: 0 <= k < i ==> sorted[k] == sections[order[k]]
    requires multiset(sorted) == multiset(sections[..i])
    ensures |sorted'| == i + 1
    ensures IsIndexPermutation(order', i + 1) && StablyDescending(keys, order')
    ensures forall k :: 0 <= k < i + 1 ==> sorted'[k] == sections[order'[k]]
    ensures multiset(sorted') == multiset(sections[..i + 1])
  {
    var p := InsertionPoint(keys, order, i);
    InsertKeepsOrder(keys, order, p, i);
    InsertKeepsIndices(order, p, i);
    InsertKeepsSections(sections, sorted, order, p, i);
    order' := order[..p] + [i] + order[p..];
    sorted' := sorted[..p] + [sections[i]] + sorted[p..];
  }

  /**
   * Where index `i` goes among the indices already sorted: after every one
   * whose key is at least its key, before every one whose key is smaller.
   */
  method InsertionPoint(keys: seq<int>, order: seq<nat>, i: nat) returns (p: nat)
    requires StablyDescending(keys, order) && i < |keys|
    ensures p <= |order|
    ensures forall k :: 0 <= k < p ==> keys[order[k]] >= keys[i]
    ensures forall k :: p <= k < |order| ==> keys[order[k]] < keys[i]
  {
    p := 0;
    while p < |order| && keys[order[p]] >= keys[i]
      invariant 0 <= p <= |order|
      invariant forall k :: 0 <= k < p ==> keys[order[k]] >= keys[i]
    {
      p := p + 1;
    }
    forall k | p < k < |order| ensures keys[order[k]] < keys[i] {
      assert Precedes(keys, order[p], order[k]);
    }
  }

  /** The sections move along with their indices when index `i` is inserted at `p`. */
  lemma InsertKeepsSections(sections: seq<Section>, sorted: seq<Section>, order: seq<nat>, p: nat, i: nat)
    requires i < |sections| && |order| == i && |sorted| == i && p <= i
    requires forall k :: 0 <= k < i ==> order[k] < |sections| && sorted[k] == sections[order[k]]
    requires multiset(sorted) == multiset(sections[..i])
    ensures var o, s := order[..p] + [i] + order[p..], sorted[..p] + [sections[i]] + sorted[p..];
      && |o| == |s| == i + 1
      && (forall k :: 0 <= k < i + 1 ==> o[k] < |sections| && s[k] == sections[o[k]])
      && multiset(s) == multiset(sections[..i + 1])
  {
    var o, s := order[..p] + [i] + order[p..], sorted[..p] + [sections[i]] + sorted[p..];
    forall k | 0 <= k < i + 1 ensures o[k] < |sections| && s[k] == sections[o[k]] {
      if k < p {
        assert o[k] == order[k] && s[k] == sorted[k];
      } else if k > p {
        assert o[k] == order[k - 1] && s[k] == sorted[k - 1];
      }
    }
    assert sorted == sorted[..p] + sorted[p..];
    assert sections[..i + 1] == sections[..i] + [sections[i]];
  }

  /**
   * Inserting the next index at the first place whose key is smaller keeps
   * the order stable, keeps every index already placed and adds the new one.
   */
  lemma InsertKeepsOrder(keys: seq<int>, order: seq<nat>, p: nat, i: nat)
    requires StablyDescending(keys, order) && i < |keys| && p <= |order|
    requires forall k :: 0 <= k < |order| ==> order[k] < i
    requires forall k :: 0 <= k < p ==> keys[order[k]] >= keys[i]
    requires forall k :: p <= k < |order| ==> keys[order[k]] < keys[i]
    ensures StablyDescending(keys, order[..p] + [i] + order[p..])
    ensures forall v :: v in order ==> v in order[..p] + [i] + order[p..]
  {
    var o := order[..p] + [i] + order[p..];
    assert forall k :: 0 <= k < p ==> o[k] == order[k];
    assert o[p] == i;
    assert forall k :: p < k < |o| ==> o[k] == order[k - 1];
    forall v | v in order ensures v in o {
      var k :| 0 <= k < |order| && order[k] == v;
      if k < p { assert o[k] == v; } else { assert o[k + 1] == v; }
    }
  }

  /** Inserting index `i` into a permutation of `0 .. i - 1` gives a permutation of `0 .. i`. */
  lemma InsertKeepsIndices(order: seq<nat>, p: nat, i: nat)
    requires IsIndexPermutation(order, i) && p <= i
    ensures IsIndexPermutation(order[..p] + [i] + order[p..], i + 1)
  {
    var o := order[..p] + [i] + order[p..];
    forall v | 0 <= v < i + 1 ensures v in o {
      if v < i {
        assert v in order;
        var k :| 0 <= k < |order| && order[k] == v;
        if k < p { assert o[k] == v; } else { assert o[k + 1] == v; }
      } else {
        assert o[p] == v;
      }
    }
  }

  /** Two indices never precede each other both ways. */
  lemma PrecedesAsymmetric(keys: seq<int>, a: nat, b: nat)
    requires a < |keys| && b < |keys|
    ensures !(Precedes(keys, a, b) && Precedes(keys, b, a))
  {
  }

  /** A stable descending order lists no index twice. */
  lemma StablyDescendingDistinct(keys: seq<int>, order: seq<nat>)
    requires StablyDescending(keys, order)
    ensures forall k, l :: 0 <= k < l < |order| ==> order[k] != order[l]
  {
    forall k, l | 0 <= k < l < |order| ensures order[k] != order[l] {
      assert Precedes(keys, order[k], order[l]);
    }
  }

  /**
   * There is only one stable descending order: any two permutations that
   * both sort the keys stably are the same. So the insertion sort above and
   * Python's own sort give the same sections in the same order.
   */
  lemma StableOrderIsUnique(keys: seq<int>, p: seq<nat>, q: seq<nat>)
    requires IsIndexPermutation(p, |keys|) && StablyDescending(keys, p)
    requires IsIndexPermutation(q, |keys|) && StablyDescending(keys, q)
    ensures p == q
  {
    AgreeUpTo(keys, p, q, |keys|);
  }

  /** The two stable orders agree on their first `n` positions. */
  lemma {:induction false} AgreeUpTo(keys: seq<int>, p: seq<nat>, q: seq<nat>, n: nat)
    requires IsIndexPermutation(p, |keys|) && StablyDescending(keys, p)
    requires IsIndexPermutation(q, |keys|) && StablyDescending(keys, q)
    requires n <= |keys|
    ensures forall j :: 0 <= j < n ==> p[j] == q[j]
  {
    if n > 0 {
      AgreeUpTo(keys, p, q, n - 1);
      AgreeAt(keys, p, q, n - 1);
    }
  }

  /** If the two stable orders agree before position `k`, they agree at `k`. */
  lemma AgreeAt(keys: seq<int>, p: seq<nat>, q: seq<nat>, k: nat)
    requires IsIndexPermutation(p, |keys|) && StablyDescending(keys, p)
    requires IsIndexPermutation(q, |keys|) && StablyDescending(keys, q)
    requires k < |keys|
    requires forall j :: 0 <= j < k ==> p[j] == q[j]
    ensures p[k] == q[k]
  {
    var a, b := p[k], q[k];
    StablyDescendingDistinct(keys, p);
    StablyDescendingDistinct(keys, q);
    assert a in q;
    var l :| 0 <= l < |q| && q[l] == a;
    assert b in p;
    var m :| 0 <= m < |p| && p[m] == b;
    // neither index can sit before position k, where the two orders agree
    assert l >= k;
    assert m >= k;
    assert l == k || Precedes(keys, q[k], q[l]);
    assert m == k || Precedes(keys, p[k], p[m]);
    PrecedesAsymmetric(keys, a, b);
  }

  /**
   * `for i, section in enumerate(sorted[:5]): section["importance_rank"] = i + 1`
   * followed by `sorted[:5]`: the first five sections, the i-th given rank
   * i + 1 and otherwise unchanged.
   */
  method AssignRanks(sorted: seq<Section>) returns (top: seq<Section>)
    ensures |top| == Min(TopK, |sorted|)
    ensures forall i :: 0 <= i < |top| ==> top[i] == sorted[i].(importanceRank := i + 1)
  {
    var ranked := sorted;
    var i := 0;
    while i < Min(TopK, |sorted|)
      invariant 0 <= i <= Min(TopK, |sorted|)
      invariant |ranked| == |sorted|
      invariant forall k :: 0 <= k < i ==> ranked[k] == sorted[k].(importanceRank := k + 1)
      invariant forall k :: i <= k < |sorted| ==> ranked[k] == sorted[k]
    {
      ranked := ranked[i := ranked[i].(importanceRank := i + 1)];
      i := i + 1;
    }
    top := ranked[..Min(TopK, |sorted|)];
  }

  /** The set of ranks the kept sections carry. */
  function Ranks(top: seq<Section>): set<nat> {
    set s | s in top :: s.importanceRank
  }

  /** The ranks of the kept sections are exactly 1 .. n, without gaps or repeats. */
  lemma RanksAreDense(top: seq<Section>)
    requires forall i :: 0 <= i < |top| ==> top[i].importanceRank == i + 1
    ensures forall r: nat :: r in Ranks(top) <==> 1 <= r <= |top|
    ensures forall i, j :: 0 <= i < j < |top| ==> top[i].importanceRank != top[j].importanceRank
  {
    forall r: nat | 1 <= r <= |top| ensures r in Ranks(top) {
      assert top[r - 1] in top;
    }
  }

  /** `top_docs_and_pages`: the (document, page) pairs of the kept sections. */
  function TopPages(sections: seq<Section>): (r: set<PageKey>)
    ensures forall s :: s in sections ==> s.Key() in r
    ensures forall key :: key in r ==> exists s :: s in sections && s.Key() == key
  {
    set s | s in sections :: s.Key()
  }

  /** `a` is `b` with some entries left out, the rest in their order. */
  predicate IsSubsequence<T(==)>(a: seq<T>, b: seq<T>)
    decreases |b|
  {
    a == [] || (b != [] && (if a[0] == b[0] then IsSubsequence(a[1..], b[1..]) else IsSubsequence(a, b[1..])))
  }

  /** A subsequence stays one when an entry is put in front of the longer sequence. */
  lemma {:induction false} SubsequenceOfLonger<T>(a: seq<T>, x: T, b: seq<T>)
    requires IsSubsequence(a, b)
    ensures IsSubsequence(a, [x] + b)
    decreases |b|, 1
  {
    if a != [] {
      assert ([x] + b)[1..] == b;
      if a[0] == x {
        SubsequenceDropHead(a, b);
      }
    }
  }

  /** Dropping the first entry of a subsequence leaves a subsequence. */
  lemma {:induction false} SubsequenceDropHead<T>(a: seq<T>, b: seq<T>)
    requires a != [] && IsSubsequence(a, b)
    ensures IsSubsequence(a[1..], b)
    decreases |b|, 0
  {
    if a[1..] != [] {
      if a[0] != b[0] {
        SubsequenceDropHead(a, b[1..]);
      }
      SubsequenceOfLonger(a[1..], b[0], b[1..]);
      assert [b[0]] + b[1..] == b;
    }
  }

  /**
   * The comprehension of main.py lines 96-99: the detail records whose
   * (document, page) is among `pages`, in their original order, each kept
   * as many times as it occurs.
   */
  function FilterDetails(details: seq<Detail>, pages: set<PageKey>): (r: seq<Detail>)
    ensures forall d :: d in r ==> d in details && d.Key() in pages
    ensures forall d :: d in details && d.Key() in pages ==> d in r
    ensures IsSubsequence(r, details)
    ensures forall d :: multiset(r)[d] == if d.Key() in pages then multiset(details)[d] else 0
  {
    if details == [] then []
    else
      var rest := FilterDetails(details[1..], pages);
      assert details == [details[0]] + details[1..];
      if details[0].Key() in pages then
        assert ([details[0]] + rest)[1..] == rest;
        [details[0]] + rest
      else
        SubsequenceOfLonger(rest, details[0], details[1..]);
        assert multiset(details) == multiset{details[0]} + multiset(details[1..]);
        rest
  }

  /** What the global ranking gives back. */
  datatype Ranking = Ranking(sections: seq<Section>, details: seq<Detail>)

  /**
   * main.py lines 81-99: sort the sections by key, keep and rank the first
   * five, and keep the detail records of their pages. `None` when some
   * section has no detail record, where the key lookup would raise.
   */
  method RankGlobally(sections: seq<Section>, details: seq<Detail>) returns (r: Option<Ranking>)
    ensures r.None? <==> SortKeys(details, sections).None?
    ensures r.Some? ==> |r.value.sections| == Min(TopK, |sections|)
    ensures r.Some? ==> forall i :: 0 <= i < |r.value.sections| ==> r.value.sections[i].importanceRank == i + 1
    ensures r.Some? ==> exists order ::
      && IsIndexPermutation(order, |sections|)
      && StablyDescending(SortKeys(details, sections).value, order)
      && forall i :: 0 <= i < |r.value.sections| ==>
           r.value.sections[i] == sections[order[i]].(importanceRank := i + 1)
    ensures r.Some? ==> r.value.details == FilterDetails(details, TopPages(r.value.sections))
    ensures r.Some? ==> forall s :: s in r.value.sections ==>
      exists d :: d in r.value.details && d.Key() == s.Key()
    ensures r.Some? ==> forall d :: d in r.value.details ==>
      exists s :: s in r.value.sections && s.Key() == d.Key()
  {
    var keys := SortKeys(details, sections);
    if keys.None? {
      return None;
    }
    var sorted, order := SortByKeyDescending(sections, keys.value);
    var top := AssignRanks(sorted);
    SectionsHaveDetails(details, sections, order, top);
    var kept := FilterDetails(details, TopPages(top));
    KeptPagesMatch(details, top, kept);
    r := Some(Ranking(top, kept));
  }

  /**
   * When every section's key lookup succeeds, every section taken from them
   * (with any rank) has a detail record on its page.
   */
  lemma SectionsHaveDetails(details: seq<Detail>, sections: seq<Section>, order: seq<nat>, top: seq<Section>)
    requires SortKeys(details, sections).Some?
    requires |top| <= |order|
    requires forall k :: 0 <= k < |top| ==> order[k] < |sections| && top[k].Key() == sections[order[k]].Key()
    ensures forall s :: s in top ==> exists d :: d in details && d.Key() == s.Key()
  {
    forall s | s in top ensures exists d :: d in details && d.Key() == s.Key() {
      var k :| 0 <= k < |top| && top[k] == s;
      var j := FirstDetail(details, sections[order[k]].Key()).value;
      assert details[j].Key() == s.Key();
    }
  }

  /**
   * When every kept section has a detail record on its page, filtering the
   * details by the kept pages leaves a detail for every kept section, and
   * only details that have a kept section on their page.
   */
  lemma KeptPagesMatch(details: seq<Detail>, top: seq<Section>, kept: seq<Detail>)
    requires forall s :: s in top ==> exists d :: d in details && d.Key() == s.Key()
    requires kept == FilterDetails(details, TopPages(top))
    ensures forall s :: s in top ==> exists d :: d in kept && d.Key() == s.Key()
    ensures forall d :: d in kept ==> exists s :: s in top && s.Key() == d.Key()
  {
    forall s | s in top ensures exists d :: d in kept && d.Key() == s.Key() {
      var d :| d in details && d.Key() == s.Key();
      assert d in kept;
    }
  }
}
