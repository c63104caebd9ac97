/**
 * The whole run of main.py (lines 36-99): every page of every document that
 * opened is segmented, its two best paragraphs are appended, in lockstep, to
 * the section and the detail lists; then the global ranking keeps five
 * sections and the detail records of their pages.
 *
 * Opening a PDF and reading its pages' text is foreign: a document comes with
 * its pages' text, or with `None` when it could not be opened. Scoring a
 * paragraph against the persona is foreign too: it is the parameter `score`.
 */
module Pipeline {
  import opened Wrappers
  import opened Text
  import opened Segmenter
  import opened Selector
  import opened Ranker

  /** An input PDF: its path relative to the input directory and its pages' text, if it opened. */
  datatype Document = Document(name: string, pages: Option<seq<string>>)

  /** A paragraph picked on a page: what one section record and one detail record are made from. */
  datatype Candidate = Candidate(document: string, pageNumber: nat, text: string)
  {
    function Key(): PageKey { (document, pageNumber) }
  }

  // ---------------------------------------------------------------------
  // What one page contributes

  /** The score of each paragraph, index-aligned with the paragraphs. */
  function Scores(paragraphs: seq<string>, score: string -> int): seq<int> {
    seq(|paragraphs|, i requires 0 <= i < |paragraphs| => score(paragraphs[i]))
  }

  /** The paragraphs at the indices `top`, in that order. */
  function Selected(paragraphs: seq<string>, top: seq<nat>): (r: seq<string>)
    requires forall k :: 0 <= k < |top| ==> top[k] < |paragraphs|
    ensures |r| == |top|
    ensures forall k :: 0 <= k < |top| ==> r[k] == paragraphs[top[k]]
  {
    seq(|top|, k requires 0 <= k < |top| => paragraphs[top[k]])
  }

  /** The paragraphs picked on a page, best first: at most two, and only from a page that is not skipped. */
  function Picks(text: string, score: string -> int): (r: seq<string>)
    ensures |r| <= PerPage
    ensures |Strip(text)| < MinPageText ==> r == []
    ensures forall p :: p in r ==> p in Paragraphs(text)
  {
    var paragraphs := Paragraphs(text);
    Selected(paragraphs, TopTwo(Scores(paragraphs, score)))
  }

  /** The per-page selection with the scores fixed: what each page's text yields. */
  function PicksBy(score: string -> int): string -> seq<string> {
    text => Picks(text, score)
  }

  /** The candidates made from the picks of the page at index `index` (page number `index + 1`). */
  function PageCandidates(name: string, index: nat, picks: seq<string>): (r: seq<Candidate>)
    ensures |r| == |picks|
    ensures forall k :: 0 <= k < |r| ==> r[k] == Candidate(name, index + 1, picks[k])
  {
    seq(|picks|, k requires 0 <= k < |picks| => Candidate(name, index + 1, picks[k]))
  }

  // ---------------------------------------------------------------------
  // What the run contributes, for any per-page selection `pick`

  /** The candidates of the first `n` pages of a document. */
  function PagesCandidates(name: string, pages: seq<string>, n: nat, pick: string -> seq<string>): seq<Candidate>
    requires n <= |pages|
  {
    if n == 0 then []
    else PagesCandidates(name, pages, n - 1, pick) + PageCandidates(name, n - 1, pick(pages[n - 1]))
  }

  /** The candidates of one document; none when it could not be opened. */
  function DocumentCandidates(doc: Document, pick: string -> seq<string>): seq<Candidate> {
    match doc.pages
    case None => []
    case Some(pages) => PagesCandidates(doc.name, pages, |pages|, pick)
  }

  /** The candidates of the first `n` documents, in the order they are processed. */
  function CandidatesOf(docs: seq<Document>, n: nat, pick: string -> seq<string>): seq<Candidate>
    requires n <= |docs|
  {
    if n == 0 then []
    else CandidatesOf(docs, n - 1, pick) + DocumentCandidates(docs[n - 1], pick)
  }

  /** Every candidate of the run. */
  function AllCandidates(docs: seq<Document>, pick: string -> seq<string>): seq<Candidate> {
    CandidatesOf(docs, |docs|, pick)
  }

  /** The section record appended for a candidate (main.py lines 68-73). */
  function SectionOf(c: Candidate): Section {
    Section(c.document, Title(c.text), 0, c.pageNumber)
  }

  /** The detail record appended for a candidate (main.py lines 75-79). */
  function DetailOf(c: Candidate): Detail {
    Detail(c.document, c.text, c.pageNumber)
  }

  function Sections(cs: seq<Candidate>): seq<Section> {
    seq(|cs|, i requires 0 <= i < |cs| => SectionOf(cs[i]))
  }

  function Details(cs: seq<Candidate>): seq<Detail> {
    seq(|cs|, i requires 0 <= i < |cs| => DetailOf(cs[i]))
  }

  /** The records of two runs of candidates are the records of the first run followed by those of the second. */
  lemma RecordsConcat(a: seq<Candidate>, b: seq<Candidate>)
    ensures Sections(a + b) == Sections(a) + Sections(b)
    ensures Details(a + b) == Details(a) + Details(b)
  {
  }

  /**
   * The two lists are appended in lockstep: they have the same length, and
   * the i-th section and the i-th detail share document and page, the
   * section's title is the title of the detail's text, and its rank is still
   * the placeholder 0.
   */
  lemma Lockstep(cs: seq<Candidate>)
    ensures |Sections(cs)| == |Details(cs)|
    ensures forall i :: 0 <= i < |cs| ==>
      && Sections(cs)[i].Key() == Details(cs)[i].Key()
      && Sections(cs)[i].sectionTitle == Title(Details(cs)[i].refinedText)
      && Sections(cs)[i].importanceRank == 0
  {
  }

  // ---------------------------------------------------------------------
  // The accumulation loops

  /**
   * The loops of main.py lines 37-79: the section and detail lists are the
   * records of every candidate of the run, appended in collection order
   * (`Lockstep` states how the two lists line up).
   */
  method Collect(docs: seq<Document>, score: string -> int) returns (sections: seq<Section>, details: seq<Detail>)
    ensures sections == Sections(AllCandidates(docs, PicksBy(score)))
    ensures details == Details(AllCandidates(docs, PicksBy(score)))
  {
    sections, details := [], [];
    var d := 0;
    while d < |docs|
      invariant 0 <= d <= |docs|
      invariant sections == Sections(CandidatesOf(docs, d, PicksBy(score)))
      invariant details == Details(CandidatesOf(docs, d, PicksBy(score)))
    {
      DocumentsStep(docs, d, PicksBy(score));
      sections, details := CollectDocument(docs[d], score, sections, details);
      d := d + 1;
    }
  }

  /** The records after document `d` are those before it followed by that document's own. */
  lemma DocumentsStep(docs: seq<Document>, d: nat, pick: string -> seq<string>)
    requires d < |docs|
    ensures Sections(CandidatesOf(docs, d + 1, pick))
         == Sections(CandidatesOf(docs, d, pick)) + Sections(DocumentCandidates(docs[d], pick))
    ensures Details(CandidatesOf(docs, d + 1, pick))
         == Details(CandidatesOf(docs, d, pick)) + Details(DocumentCandidates(docs[d], pick))
  {
    RecordsConcat(CandidatesOf(docs, d, pick), DocumentCandidates(docs[d], pick));
  }

  /**
   * One pass of the loop over files (main.py lines 37-79): a document that
   * could not be opened adds nothing; otherwise each page adds its records.
   */
  method CollectDocument(doc: Document, score: string -> int, sections: seq<Section>, details: seq<Detail>)
    returns (sections': seq<Section>, details': seq<Detail>)
    ensures sections' == sections + Sections(DocumentCandidates(doc, PicksBy(score)))
    ensures details' == details + Details(DocumentCandidates(doc, PicksBy(score)))
  {
    if doc.pages.None? {
      assert DocumentCandidates(doc, PicksBy(score)) == [];
      return sections, details;
    }
    var pages := doc.pages.value;
    sections', details' := sections, details;
    var n := 0;
    while n < |pages|
      invariant 0 <= n <= |pages|
      invariant sections' == sections + Sections(PagesCandidates(doc.name, pages, n, PicksBy(score)))
      invariant details' == details + Details(PagesCandidates(doc.name, pages, n, PicksBy(score)))
    {
      PagesStep(doc.name, pages, n, PicksBy(score), sections, details);
      assert PicksBy(score)(pages[n]) == Picks(pages[n], score);
      sections', details' := CollectPage(doc.name, n, pages[n], score, sections', details');
      n := n + 1;
    }
  }

  /** The records after page `n` are those before it followed by that page's own. */
  lemma PagesStep(name: string, pages: seq<string>, n: nat, pick: string -> seq<string>,
                  sections: seq<Section>, details: seq<Detail>)
    requires n < |pages|
    ensures sections + Sections(PagesCandidates(name, pages, n + 1, pick))
         == sections + Sections(PagesCandidates(name, pages, n, pick)) + Sections(PageCandidates(name, n, pick(pages[n])))
    ensures details + Details(PagesCandidates(name, pages, n + 1, pick))
         == details + Details(PagesCandidates(name, pages, n, pick)) + Details(PageCandidates(name, n, pick(pages[n])))
  {
    var earlier, page := PagesCandidates(name, pages, n, pick), PageCandidates(name, n, pick(pages[n]));
    RecordsConcat(earlier, page);
    AppendAssoc(sections, Sections(earlier), Sections(page));
    AppendAssoc(details, Details(earlier), Details(page));
  }

  /**
   * One pass of the loop over pages (main.py lines 45-79): a short page or a
   * page without paragraphs adds nothing; otherwise each of the (at most) two
   * best paragraphs adds a section and a detail record.
   */
  method CollectPage(name: string, index: nat, text: string, score: string -> int,
                     sections: seq<Section>, details: seq<Detail>)
    returns (sections': seq<Section>, details': seq<Detail>)
    ensures sections' == sections + Sections(PageCandidates(name, index, Picks(text, score)))
    ensures details' == details + Details(PageCandidates(name, index, Picks(text, score)))
  {
    if |Strip(text)| < MinPageText {
      NoPicksNoRecords(name, index, Picks(text, score), sections, details);
      return sections, details;
    }
    var paragraphs := Passages(Split(text));
    if paragraphs == [] {
      NoPicksNoRecords(name, index, Picks(text, score), sections, details);
      return sections, details;
    }
    var top := TopTwo(Scores(paragraphs, score));
    assert Picks(text, score) == Selected(paragraphs, top);
    sections', details' := AppendPicks(name, index, paragraphs, top, sections, details);
  }

  /** A page with no picks adds no records. */
  lemma NoPicksNoRecords(name: string, index: nat, picks: seq<string>, sections: seq<Section>, details: seq<Detail>)
    requires picks == []
    ensures sections + Sections(PageCandidates(name, index, picks)) == sections
    ensures details + Details(PageCandidates(name, index, picks)) == details
  {
    assert Sections(PageCandidates(name, index, picks)) == [];
    assert Details(PageCandidates(name, index, picks)) == [];
  }

  /** The loop of main.py lines 64-79: one section and one detail record per chosen index, in lockstep. */
  method AppendPicks(name: string, index: nat, paragraphs: seq<string>, top: seq<nat>,
                     sections: seq<Section>, details: seq<Detail>)
    returns (sections': seq<Section>, details': seq<Detail>)
    requires forall k :: 0 <= k < |top| ==> top[k] < |paragraphs|
    ensures sections' == sections + Sections(PageCandidates(name, index, Selected(paragraphs, top)))
    ensures details' == details + Details(PageCandidates(name, index, Selected(paragraphs, top)))
  {
    ghost var cs := PageCandidates(name, index, Selected(paragraphs, top));
    sections', details' := sections, details;
    var j := 0;
    while j < |top|
      invariant 0 <= j <= |top|
      invariant sections' == sections + Sections(cs[..j])
      invariant details' == details + Details(cs[..j])
    {
      var paraText := paragraphs[top[j]];
      assert cs[..j + 1] == cs[..j] + [cs[j]];
      RecordsConcat(cs[..j], [cs[j]]);
      AppendAssoc(sections, Sections(cs[..j]), Sections([cs[j]]));
      AppendAssoc(details, Details(cs[..j]), Details([cs[j]]));
      sections' := sections' + [Section(name, Title(paraText), 0, index + 1)];
      details' := details' + [Detail(name, paraText, index + 1)];
      j := j + 1;
    }
    assert cs[..j] == cs;
  }

  // ---------------------------------------------------------------------
  // Where the records come from

  /** A candidate of the first `n` pages comes from the picks of one of them. */
  lemma {:induction false} PagesProvenance(name: string, pages: seq<string>, n: nat, pick: string -> seq<string>, c: Candidate)
    requires n <= |pages|
    requires c in PagesCandidates(name, pages, n, pick)
    ensures exists p :: 0 <= p < n && c.document == name && c.pageNumber == p + 1 && c.text in pick(pages[p])
  {
    var earlier := PagesCandidates(name, pages, n - 1, pick);
    var last := PageCandidates(name, n - 1, pick(pages[n - 1]));
    if c in earlier {
      PagesProvenance(name, pages, n - 1, pick, c);
    } else {
      var k :| 0 <= k < |last| && last[k] == c;
      assert c.text == pick(pages[n - 1])[k];
    }
  }

  /** A candidate of the first `n` documents comes from one of them. */
  lemma {:induction false} CandidatesOfProvenance(docs: seq<Document>, n: nat, pick: string -> seq<string>, c: Candidate)
    requires n <= |docs|
    requires c in CandidatesOf(docs, n, pick)
    ensures exists d :: 0 <= d < n && c in DocumentCandidates(docs[d], pick)
  {
    if c !in DocumentCandidates(docs[n - 1], pick) {
      CandidatesOfProvenance(docs, n - 1, pick, c);
    }
  }

  /** A candidate of the run names a document that opened, one of its pages, and one of that page's picks. */
  lemma CandidateOrigin(docs: seq<Document>, pick: string -> seq<string>, c: Candidate)
    requires c in AllCandidates(docs, pick)
    ensures exists d ::
      && 0 <= d < |docs| && docs[d].name == c.document && docs[d].pages.Some?
      && 1 <= c.pageNumber <= |docs[d].pages.value|
      && c.text in pick(docs[d].pages.value[c.pageNumber - 1])
  {
    CandidatesOfProvenance(docs, |docs|, pick, c);
    var d :| 0 <= d < |docs| && c in DocumentCandidates(docs[d], pick);
    var pages := docs[d].pages.value;
    PagesProvenance(docs[d].name, pages, |pages|, pick, c);
  }

  /**
   * Every candidate of the run names a document that opened and a page of it
   * (numbered from 1) that was not skipped, and its text is one of that
   * page's paragraphs.
   */
  lemma CandidateProvenance(docs: seq<Document>, score: string -> int, c: Candidate)
    requires c in AllCandidates(docs, PicksBy(score))
    ensures exists d ::
      && 0 <= d < |docs| && docs[d].name == c.document && docs[d].pages.Some?
      && 1 <= c.pageNumber <= |docs[d].pages.value|
      && |Strip(docs[d].pages.value[c.pageNumber - 1])| >= MinPageText
      && c.text in Paragraphs(docs[d].pages.value[c.pageNumber - 1])
  {
    CandidateOrigin(docs, PicksBy(score), c);
    var d :| && 0 <= d < |docs| && docs[d].name == c.document && docs[d].pages.Some?
             && 1 <= c.pageNumber <= |docs[d].pages.value|
             && c.text in PicksBy(score)(docs[d].pages.value[c.pageNumber - 1]);
    var text := docs[d].pages.value[c.pageNumber - 1];
    assert c.text in Picks(text, score);
  }

  // ---------------------------------------------------------------------
  // At most two records per page

  /** How many of the first `n` candidates have the given (document, page). */
  function CountKeyUpTo(cs: seq<Candidate>, key: PageKey, n: nat): nat
    requires n <= |cs|
  {
    if n == 0 then 0
    else CountKeyUpTo(cs, key, n - 1) + (if cs[n - 1].Key() == key then 1 else 0)
  }

  /** How many candidates have the given (document, page). */
  function CountKey(cs: seq<Candidate>, key: PageKey): nat {
    CountKeyUpTo(cs, key, |cs|)
  }

  /** Appending candidates leaves the count over a prefix unchanged. */
  lemma {:induction false} CountKeyPrefix(a: seq<Candidate>, b: seq<Candidate>, key: PageKey, n: nat)
    requires n <= |a|
    ensures CountKeyUpTo(a + b, key, n) == CountKeyUpTo(a, key, n)
  {
    if n > 0 {
      CountKeyPrefix(a, b, key, n - 1);
      assert (a + b)[n - 1] == a[n - 1];
    }
  }

  /** Counting over `a + b` up to `|a| + n` is counting all of `a` and the first `n` of `b`. */
  lemma {:induction false} CountKeySuffix(a: seq<Candidate>, b: seq<Candidate>, key: PageKey, n: nat)
    requires n <= |b|
    ensures CountKeyUpTo(a + b, key, |a| + n) == CountKey(a, key) + CountKeyUpTo(b, key, n)
  {
    if n == 0 {
      CountKeyPrefix(a, b, key, |a|);
    } else {
      CountKeySuffix(a, b, key, n - 1);
      assert (a + b)[|a| + n - 1] == b[n - 1];
    }
  }

  lemma CountKeyConcat(a: seq<Candidate>, b: seq<Candidate>, key: PageKey)
    ensures CountKey(a + b, key) == CountKey(a, key) + CountKey(b, key)
  {
    CountKeySuffix(a, b, key, |b|);
  }

  /** A key counts at most the candidates looked at, and none when none of them carries it. */
  lemma {:induction false} CountKeyUpToBound(cs: seq<Candidate>, key: PageKey, n: nat)
    requires n <= |cs|
    ensures CountKeyUpTo(cs, key, n) <= n
    ensures (forall i :: 0 <= i < n ==> cs[i].Key() != key) ==> CountKeyUpTo(cs, key, n) == 0
  {
    if n > 0 {
      CountKeyUpToBound(cs, key, n - 1);
    }
  }

  /** A key counts at most every candidate, and none when no candidate carries it. */
  lemma CountKeyBound(cs: seq<Candidate>, key: PageKey)
    ensures CountKey(cs, key) <= |cs|
    ensures (forall i :: 0 <= i < |cs| ==> cs[i].Key() != key) ==> CountKey(cs, key) == 0
  {
    CountKeyUpToBound(cs, key, |cs|);
  }

  /** Within one document, a key counts only the candidates of its own page, of which there are at most two. */
  lemma {:induction false} CountPages(name: string, pages: seq<string>, n: nat, pick: string -> seq<string>, key: PageKey)
    requires n <= |pages|
    requires forall p :: 0 <= p < |pages| ==> |pick(pages[p])| <= PerPage
    ensures CountKey(PagesCandidates(name, pages, n, pick), key) <= PerPage
    ensures key.0 != name ==> CountKey(PagesCandidates(name, pages, n, pick), key) == 0
    ensures key.1 > n ==> CountKey(PagesCandidates(name, pages, n, pick), key) == 0
  {
    if n > 0 {
      var earlier := PagesCandidates(name, pages, n - 1, pick);
      var last := PageCandidates(name, n - 1, pick(pages[n - 1]));
      CountPages(name, pages, n - 1, pick, key);
      CountKeyBound(last, key);
      CountKeyConcat(earlier, last, key);
    }
  }

  /** No two documents of the run have the same name. */
  predicate DistinctNames(docs: seq<Document>) {
    forall d, e :: 0 <= d < e < |docs| ==> docs[d].name != docs[e].name
  }

  /** One document's candidates count at most two for a key, and none for a key of another document. */
  lemma CountDocument(doc: Document, pick: string -> seq<string>, key: PageKey)
    requires forall t :: |pick(t)| <= PerPage
    ensures CountKey(DocumentCandidates(doc, pick), key) <= PerPage
    ensures doc.name != key.0 ==> CountKey(DocumentCandidates(doc, pick), key) == 0
  {
    if doc.pages.Some? {
      CountPages(doc.name, doc.pages.value, |doc.pages.value|, pick, key);
    } else {
      assert DocumentCandidates(doc, pick) == [];
    }
  }

  /** How many candidates of a document have the given (document, page). */
  function CountIn(pick: string -> seq<string>, key: PageKey): Document -> nat {
    doc => CountKey(DocumentCandidates(doc, pick), key)
  }

  /** The per-document counts `count` summed over the first `n` documents. */
  function DocumentsCount(docs: seq<Document>, n: nat, count: Document -> nat): nat
    requires n <= |docs|
  {
    if n == 0 then 0 else DocumentsCount(docs, n - 1, count) + count(docs[n - 1])
  }

  /** Counting over all the documents' candidates is counting document by document. */
  lemma {:induction false} CountIsSum(docs: seq<Document>, n: nat, pick: string -> seq<string>, key: PageKey)
    requires n <= |docs|
    ensures CountKey(CandidatesOf(docs, n, pick), key) == DocumentsCount(docs, n, CountIn(pick, key))
  {
    if n == 0 {
      assert CandidatesOf(docs, n, pick) == [];
    } else {
      CountIsSum(docs, n - 1, pick, key);
      CountKeyConcat(CandidatesOf(docs, n - 1, pick), DocumentCandidates(docs[n - 1], pick), key);
    }
  }

  /** Documents none of which is named `name`, each counting nothing unless so named, count nothing. */
  lemma {:induction false} CountOtherDocuments(docs: seq<Document>, n: nat, count: Document -> nat, name: string)
    requires n <= |docs|
    requires forall d :: 0 <= d < n ==> docs[d].name != name
    requires forall doc: Document :: doc.name != name ==> count(doc) == 0
    ensures DocumentsCount(docs, n, count) == 0
  {
    if n > 0 {
      CountOtherDocuments(docs, n - 1, count, name);
    }
  }

  /**
   * With distinct names, documents that each count at most two, and nothing
   * unless named `name`, count at most two together.
   */
  lemma {:induction false} CountDocuments(docs: seq<Document>, n: nat, count: Document -> nat, name: string)
    requires n <= |docs| && DistinctNames(docs)
    requires forall doc: Document :: count(doc) <= PerPage && (doc.name != name ==> count(doc) == 0)
    ensures DocumentsCount(docs, n, count) <= PerPage
  {
    if n > 0 {
      if docs[n - 1].name == name {
        // only this document has the name, so the earlier ones count nothing
        assert forall d :: 0 <= d < n - 1 ==> docs[d].name != docs[n - 1].name;
        CountOtherDocuments(docs, n - 1, count, name);
      } else {
        CountDocuments(docs, n - 1, count, name);
      }
    }
  }

  /**
   * With distinct document names, no (document, page) has more than two
   * section records, and so no more than two detail records.
   */
  lemma AtMostTwoPerPage(docs: seq<Document>, score: string -> int, key: PageKey)
    requires DistinctNames(docs)
    ensures CountKey(AllCandidates(docs, PicksBy(score)), key) <= PerPage
  {
    var count := CountIn(PicksBy(score), key);
    forall doc: Document ensures count(doc) <= PerPage && (doc.name != key.0 ==> count(doc) == 0) {
      CountDocument(doc, PicksBy(score), key);
    }
    CountIsSum(docs, |docs|, PicksBy(score), key);
    CountDocuments(docs, |docs|, count, key.0);
  }

  // ---------------------------------------------------------------------
  // The sort keys of the collected records

  /**
   * The length of the first paragraph collected for each (document, page):
   * a dictionary filled in collection order that never overwrites a page.
   */
  function FirstLengths(cs: seq<Candidate>): (m: map<PageKey, nat>)
    ensures forall i :: 0 <= i < |cs| ==> cs[i].Key() in m
  {
    if cs == [] then map[]
    else
      var init := cs[..|cs| - 1];
      var m := FirstLengths(init);
      var last := cs[|cs| - 1];
      assert forall i :: 0 <= i < |init| ==> cs[i] == init[i];
      if last.Key() in m then m else m[last.Key() := |last.text|]
  }

  /** The sort key of each collected record: the first length recorded for its page. */
  function PageKeyLengths(cs: seq<Candidate>): (r: seq<nat>)
    ensures |r| == |cs|
    ensures forall i, j :: 0 <= i < |cs| && 0 <= j < |cs| && cs[i].Key() == cs[j].Key() ==> r[i] == r[j]
  {
    var m := FirstLengths(cs);
    seq(|cs|, i requires 0 <= i < |cs| => m[cs[i].Key()])
  }

  /** A page that no candidate names has no entry. */
  lemma {:induction false} FirstLengthsOnlyCollected(cs: seq<Candidate>, key: PageKey)
    requires forall i :: 0 <= i < |cs| ==> cs[i].Key() != key
    ensures key !in FirstLengths(cs)
  {
    if cs != [] {
      var init := cs[..|cs| - 1];
      assert forall i :: 0 <= i < |init| ==> init[i] == cs[i];
      FirstLengthsOnlyCollected(init, key);
    }
  }

  /** The dictionary holds, for each page, the length of that page's earliest candidate. */
  lemma {:induction false} FirstLengthsIsFirst(cs: seq<Candidate>, j: nat)
    requires j < |cs|
    requires forall i :: 0 <= i < j ==> cs[i].Key() != cs[j].Key()
    ensures FirstLengths(cs)[cs[j].Key()] == |cs[j].text|
  {
    var init := cs[..|cs| - 1];
    assert forall i :: 0 <= i < |init| ==> init[i] == cs[i];
    if j < |cs| - 1 {
      FirstLengthsIsFirst(init, j);
    } else {
      FirstLengthsOnlyCollected(init, cs[j].Key());
    }
  }

  /** The key of the i-th collected section is the first length recorded for its page. */
  lemma LockstepKey(cs: seq<Candidate>, i: nat)
    requires i < |cs|
    ensures SortKey(Details(cs), Sections(cs)[i]) == Some(PageKeyLengths(cs)[i])
  {
    var details, s := Details(cs), Sections(cs)[i];
    assert details[i].Key() == s.Key();
    var j := FirstDetail(details, s.Key()).value;
    assert details[j] == DetailOf(cs[j]);
    assert forall l :: 0 <= l < j ==> details[l] == DetailOf(cs[l]);
    FirstLengthsIsFirst(cs, j);
  }

  /**
   * The key lookup never fails on records collected in lockstep, and the key
   * of each section is the length of the first paragraph collected for its
   * page: the two sections of a page share one key.
   */
  lemma LockstepKeys(cs: seq<Candidate>)
    ensures SortKeys(Details(cs), Sections(cs)) == Some(PageKeyLengths(cs))
  {
    var details, sections := Details(cs), Sections(cs);
    var lengths := PageKeyLengths(cs);
    forall i | 0 <= i < |sections|
      ensures SortKey(details, sections[i]) == Some(lengths[i])
    {
      LockstepKey(cs, i);
    }
    var keys := SortKeys(details, sections).value;
    assert forall i :: 0 <= i < |keys| ==> keys[i] == lengths[i];
    assert keys == lengths;
  }

  /**
   * Two records from one page share a key, so the stable sort keeps them in
   * the order they were collected, whatever their lengths: the better-scored
   * paragraph comes first even when it is the shorter one.
   */
  lemma SamePageKeepsCollectionOrder(cs: seq<Candidate>, order: seq<nat>, i: nat, j: nat)
    requires i < j < |cs| && cs[i].Key() == cs[j].Key()
    requires IsIndexPermutation(order, |cs|) && StablyDescending(PageKeyLengths(cs), order)
    ensures exists k, l :: 0 <= k < l < |order| && order[k] == i && order[l] == j
  {
    var keys := PageKeyLengths(cs);
    assert i in order && j in order;
    var k :| 0 <= k < |order| && order[k] == i;
    var l :| 0 <= l < |order| && order[l] == j;
    // j does not precede i, so j cannot come first in the order
    assert !Precedes(keys, j, i);
  }

  // ---------------------------------------------------------------------
  // The whole run

  /**
   * main.py lines 37-99 end to end: at most five sections, ranked 1 to n,
   * that are the section records of the first candidates of the stable
   * descending order by page key; and the detail records of their pages, in
   * collection order. The key lookup cannot fail.
   */
  method Run(docs: seq<Document>, score: string -> int) returns (r: Ranking)
    ensures var cs := AllCandidates(docs, PicksBy(score));
      && |r.sections| == Min(TopK, |cs|)
      && exists order ::
           && IsIndexPermutation(order, |cs|)
           && StablyDescending(PageKeyLengths(cs), order)
           && forall i :: 0 <= i < |r.sections| ==>
                r.sections[i] == SectionOf(cs[order[i]]).(importanceRank := i + 1)
    ensures forall i :: 0 <= i < |r.sections| ==> r.sections[i].importanceRank == i + 1
    ensures r.details == FilterDetails(Details(AllCandidates(docs, PicksBy(score))), TopPages(r.sections))
    ensures forall s :: s in r.sections ==> exists d :: d in r.details && d.Key() == s.Key()
    ensures forall d :: d in r.details ==> exists s :: s in r.sections && s.Key() == d.Key()
  {
    var sections, details := Collect(docs, score);
    ghost var cs := AllCandidates(docs, PicksBy(score));
    LockstepKeys(cs);
    var ranked := RankGlobally(sections, details);
    r := ranked.value;
  }
}
