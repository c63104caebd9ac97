# Relevance ranking of PDF passages, modelled in Dafny

This project models the deterministic core of `main.py`. The script reads
every page of every input PDF and cuts the page's text into paragraphs. It
scores the paragraphs against a persona and keeps the two best of each page.
For each kept paragraph it appends, in lockstep, a *section* record (title,
placeholder rank, page number) and a *detail* record (full text, page
number). At the end it sorts the sections stably by a length key, keeps and
ranks the first five, and filters the details down to the pages of those
five.

The modules follow the stages of the script:

- `Wrappers` holds `Option` and `Min`.
- `Text` models Python's `str.strip()`, with the full `str.isspace` set, and `str.split("\n\n")`, with a join that undoes it.
- `Segmenter` models the page filter (stripped text shorter than 100 is skipped) and the paragraph comprehension (stripped chunks longer than 40).
- `Selector` models the top-two selection of a page and the section title.
- `Ranker` models the global ranking:
  - the key lookup with `next(...)`;
  - the stable descending sort (an insertion sort over index sequences, proved to give the unique stable order);
  - the rank loop;
  - the page filter on the detail records.
- `Pipeline` models the accumulation loops over documents, pages and picks, and the whole run `Run`.

Foreign inputs are parameters:
- A `Document` carries its name and either the text of its pages or `None` when it could not be opened.
- Scoring a paragraph is a total function `score: string -> int`.

Two behaviours of the code that a reader might not expect (the model follows the code):

- **The global sort key.** One might expect each candidate to be ranked by the length of its own paragraph. The code (main.py:82-86) instead looks up the *first* detail record with the same (document, page), so both sections of a page carry the length of that page's first-appended paragraph. `Pipeline.LockstepKeys` and `Pipeline.PageKeyLengths` state the key as written. `Pipeline.SamePageKeepsCollectionOrder` shows the consequence: in any run, two sections from one page keep their collection order, so the better-scored paragraph ranks ahead of the other even when it is the shorter one.
- **Ties within a page.** The code uses `argsort(descending=True)` (main.py:63), which does not promise any order among equal scores, so which of several equally scored paragraphs a page keeps is not fixed. `Selector.TopTwo`'s contract says nothing about ties.

## Model

| member | source | states |
|---|---|---|
| Text.StartOfText | main.py:49 | the index of the first non-whitespace character: everything before it is whitespace (in the `str.isspace` sense) and the character at it is not |
| Text.EndOfText | main.py:49 | one past the last non-whitespace character: everything from it on is whitespace and the character before it is not |
| Text.Strip | main.py:49 | `strip()` gives a stripped slice of the input that starts at its first non-whitespace character and is followed only by whitespace; it is empty exactly when the input is all whitespace |
| Text.StripFixesStripped | main.py:53 | a string with no whitespace at either end is left unchanged by `strip()` |
| Text.StripIdempotent | main.py:53 | stripping twice is stripping once |
| Text.Split | main.py:53 | `split("\n\n")` always gives at least one piece |
| Text.SplitPieces | main.py:53 | the first piece is a prefix of the text; no piece holds the separator and none but the last ends in a newline, so every cut is at the leftmost remaining separator |
| Text.JoinSplit | main.py:53 | splitting loses nothing: joining the pieces with the separator gives back the text |
| Segmenter.Passages | main.py:53 | the comprehension keeps at most one paragraph per chunk, and each kept paragraph is stripped and longer than 40 characters |
| Segmenter.PassagesAppend | main.py:53 | the filter keeps chunk order: the paragraphs of two runs of chunks are those of the first run followed by those of the second |
| Segmenter.PassagesMembership | main.py:53 | a string is a paragraph exactly when it is the stripped form, longer than 40, of some chunk (both directions) |
| Segmenter.Paragraphs | main.py:49-56 | a page whose stripped text is shorter than 100 characters yields no paragraphs; every paragraph is stripped and longer than 40 |
| Segmenter.ParagraphsHaveNoSeparator | main.py:53 | no paragraph holds a blank line |
| Selector.BestIndex | main.py:63 | the index of a highest score among the first `n`, skipping one index; there is none exactly when no other index is left |
| Selector.TopTwo | main.py:63 | `argsort(descending=True)[:2]` gives min(2, count) distinct valid indices, best first, and every chosen score is at least every unchosen score |
| Selector.Title | main.py:70 | the title is the text when the text has at most 80 characters; otherwise it is 83 characters, its first 80 are the text's, and it ends in "..." |
| Ranker.FirstDetail | main.py:83-86 | the index of the first detail record with the given (document, page), or none exactly when no record has it |
| Ranker.SortKey | main.py:83-86 | a section's key is the text length of the first detail record on its page; the key is missing (where `next` raises) exactly when no detail record is on that page |
| Ranker.SortKeys | main.py:82-88 | the keys of all sections exist exactly when each section's key exists, and they are index-aligned with the sections |
| Ranker.SamePageSameKey | main.py:83-86 | two sections on the same (document, page) get the same key |
| Ranker.SortByKeyDescending | main.py:82-88 | the sorted list is the input taken in an order that is a permutation of the indices, with larger keys first and input order kept among equal keys; it is a permutation of the input |
| Ranker.InsertionPoint | main.py:82-88 | the position where an index goes among indices already sorted: every earlier key is at least its key and every later key is smaller |
| Ranker.InsertNext | main.py:82-88 | one insertion step of the sort: the sorted sections and their index order grow by section `i`, remain a stable descending permutation of `0 .. i`, and the sections stay a permutation of the first `i + 1` |
| Ranker.InsertKeepsIndices | main.py:82-88 | inserting index `i` into a permutation of `0 .. i - 1` gives a permutation of `0 .. i` |
| Ranker.InsertKeepsOrder | main.py:82-88 | inserting an index at that position keeps the indices stably descending and loses none |
| Ranker.StablyDescendingDistinct | main.py:82-88 | a stably descending order lists no index twice |
| Ranker.StableOrderIsUnique | main.py:82-88 | there is only one stable descending order of a list of keys, so the sort's result is fully determined |
| Ranker.AssignRanks | main.py:90-94 | the first min(5, n) sorted sections are kept, and the i-th gets rank i + 1 with every other field unchanged |
| Ranker.RanksAreDense | main.py:90-94 | the ranks of the kept sections are exactly 1..n, with no gap and no duplicate |
| Ranker.TopPages | main.py:95 | the set holds exactly the (document, page) pairs of the kept sections |
| Ranker.FilterDetails | main.py:96-99 | the filtered details are an order-preserving subsequence of the details; they hold exactly the records whose (document, page) is in the set, each as many times as it occurs in the details, and no other |
| Ranker.SectionsHaveDetails | main.py:83-86 | when every key lookup succeeds, every section taken from the input has a detail record on its page |
| Ranker.KeptPagesMatch | main.py:95-99 | filtering the details by the kept pages keeps a detail for every kept section that has one, and only details with a kept section on their page |
| Ranker.RankGlobally | main.py:81-99 | fails exactly when a key lookup fails. Otherwise: at most five sections, ranked 1..n, taken in a stable descending order of the keys; the details are the filter of the full list by the kept pages; every kept section has a detail record on its page and every kept detail has a section on its page |
| Pipeline.Picks | main.py:49-66 | at most two paragraphs are picked on a page, none from a page with stripped text under 100 characters, and each pick is one of the page's paragraphs |
| Pipeline.Lockstep | main.py:68-79 | the section and detail lists have equal length; the i-th entries share document and page; the section's title is the title of the detail's text, and its rank is the placeholder 0 |
| Pipeline.Collect | main.py:37-79 | the loop over documents appends the records of every candidate of the run, in processing order |
| Pipeline.CollectDocument | main.py:37-47 | a document that did not open adds nothing; otherwise its pages' records are appended in page order |
| Pipeline.CollectPage | main.py:45-79 | a skipped page or a page without paragraphs adds nothing; otherwise the records of its picks are appended |
| Pipeline.AppendPicks | main.py:64-79 | one section and one detail record are appended per chosen index, in the order of the indices |
| Pipeline.PagesProvenance | main.py:45-79 | a candidate of a document's first n pages comes from the picks of one of them, numbered index + 1 |
| Pipeline.CandidateOrigin | main.py:37-79 | a candidate of the run names a document that opened, a page of it numbered from 1, and one of that page's picks |
| Pipeline.CandidateProvenance | main.py:37-56 | every candidate names a document that opened and a page of it (1-based) whose stripped text is at least 100 characters, and its text is one of that page's paragraphs |
| Pipeline.CountKeyConcat | main.py:68-79 | counting the records of a (document, page) distributes over concatenation |
| Pipeline.CountPages | main.py:45-79 | within one document, a (document, page) has at most two candidates, and none for another document or a later page |
| Pipeline.CountIsSum | main.py:37-79 | the number of candidates of the run with a given (document, page) is the sum, document by document, of each document's own count |
| Pipeline.CountOtherDocuments | main.py:37-79 | documents not named like a page's document add nothing to that page's count |
| Pipeline.CountDocuments | main.py:37-79 | with distinct names, where each document counts at most two for a page and only the page's own document counts anything, any prefix of the documents counts at most two |
| Pipeline.AtMostTwoPerPage | main.py:62-79 | with distinct document names, no (document, page) has more than two section records in the whole run |
| Pipeline.FirstLengths | main.py:83-86 | a "first seen" dictionary from (document, page) to paragraph length, with an entry for every collected page |
| Pipeline.FirstLengthsIsFirst | main.py:83-86 | the dictionary holds, for each page, the length of that page's earliest candidate |
| Pipeline.PageKeyLengths | main.py:83-86 | the key of each collected record; records of the same page get equal keys |
| Pipeline.LockstepKeys | main.py:82-88 | on records appended in lockstep, the key lookup never fails, and the keys are exactly the first length recorded for each record's page |
| Pipeline.SamePageKeepsCollectionOrder | main.py:82-88 | in any run, for any two records from the same page, every stable descending order by page key lists the earlier-collected one first |
| Pipeline.Run | main.py:37-99 | end to end, the key lookup cannot fail. The output holds min(5, n) sections: the section records of the first candidates in the unique stable descending order by page key, ranked 1..n. It holds the detail records of their pages in collection order, and every kept section has a kept detail on its page and vice versa |

## Left out

- Opening PDFs and reading page text through `fitz` (main.py:40, 45-47) is foreign. Each document comes with its pages' text already extracted. A document that fails to open (main.py:41-43) carries `None` and adds nothing. The warning it prints is not modelled.
- The sentence-embedding model and cosine similarity (main.py:17, 20, 59-60) are floating-point code in a library this model does not see. They are replaced by a total function `score` from paragraph text to an integer. The model assumes that a paragraph's score depends only on its text, not on the other paragraphs encoded in the same batch.
- Selector.TopTwo: the order among equal scores is left open, as torch's `argsort` does not promise one. The function itself picks the earliest index of a maximum.
- Pipeline.Run / Pipeline.Collect: their exact output is stated through `Pipeline.AllCandidates`, which uses `Selector.TopTwo` and so fixes the earliest-index choice among equally scored paragraphs of a page. When a page's top scores tie, the program may keep other paragraphs than the ones these ensures name. The provenance (`Pipeline.CandidateOrigin`, `Pipeline.CandidateProvenance`), at-most-two (`Pipeline.AtMostTwoPerPage`), ranking (`Ranker.RankGlobally`) and filter (`Ranker.FilterDetails`) results use no more of the selection than `Selector.TopTwo`'s contract, so they hold whichever tied paragraphs are kept.
- File discovery with `os.walk` and the relative paths (main.py:26-34, 38) are file-system I/O. The documents are given in processing order with their relative names, and the `input_documents` list is not modelled. Distinct names are required only where `Pipeline.AtMostTwoPerPage` and `Pipeline.CountDocuments` need them.
- Reading the persona file, building and writing the output JSON, the timestamp, `makedirs` and the final `print` (main.py:11-14, 101-120) are I/O with no logic.
- Ranker.SortByKeyDescending: Python sorts the list in place with its own stable algorithm. The model builds a new sequence by insertion instead. `Ranker.StableOrderIsUnique` shows that any stable descending sort gives this same result.
- Ranker.AssignRanks: the source sets `importance_rank` on the dictionaries in place (main.py:90-91). The model copies each record with the new rank. No other reference to those dictionaries exists, so nothing else observes the change.
- Python strings may hold lone surrogate code points, which Dafny's `char` cannot hold. Text is modelled as a sequence of Unicode scalar values.
