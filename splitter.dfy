/**
  workflow_scripts/pdf_splitter.py: `run_pdf_split` shows the model the first
  and last pages of a PDF, receives a table of contents as JSON, sorts it by
  page and writes one PDF per chapter. The page images, the model's reply, the
  PDF library's copy/save and the folder creation are inputs; what is modelled
  is the sampling, the cleaning of titles, the sort, the page arithmetic, the
  file names, the counter and the events.
*/
module PdfSplitter {
  import opened Common
  import opened Text
  import opened Paths
  import opened Events
  import Desktop

  // ---------------------------------------------------------------- titles

  /** The characters `sanitize_filename` removes: `\ / * ? : " < > |`. */
  predicate IsForbidden(c: char) {
    c == '\\' || c == '/' || c == '*' || c == '?' || c == ':' || c == '"' || c == '<' || c == '>' || c == '|'
  }

  /** The `re.sub` of `sanitize_filename`: every forbidden character deleted. */
  function RemoveForbidden(s: string): (r: string)
    ensures |r| <= |s|
    ensures forall i :: 0 <= i < |r| ==> !IsForbidden(r[i])
  {
    if s == [] then []
    else RemoveForbidden(s[..|s| - 1]) + (if IsForbidden(s[|s| - 1]) then [] else [s[|s| - 1]])
  }

  /** `sanitize_filename`: the forbidden characters removed, then surrounding whitespace stripped. */
  function SanitizeFilename(name: string): string {
    Strip(RemoveForbidden(name))
  }

  /** A cleaned name holds no forbidden character and neither starts nor ends with whitespace. */
  lemma SanitizedIsClean(name: string)
    ensures var r := SanitizeFilename(name);
      && (forall i :: 0 <= i < |r| ==> !IsForbidden(r[i]))
      && (r == [] || (!IsSpace(r[0]) && !IsSpace(r[|r| - 1])))
  {
    var cleaned := RemoveForbidden(name);
    StripIsSlice(cleaned);
    var r := Strip(cleaned);
    forall i | 0 <= i < |r| ensures !IsForbidden(r[i]) {
      assert r[i] == cleaned[StripStart(cleaned) + i];
    }
  }

  /** Removal works character by character, keeping the others in their order. */
  lemma {:induction false} RemoveForbiddenAppend(a: string, b: string)
    ensures RemoveForbidden(a + b) == RemoveForbidden(a) + RemoveForbidden(b)
    decreases |b|
  {
    if b == [] {
      assert a + b == a;
    } else {
      assert (a + b)[..|a + b| - 1] == a + b[..|b| - 1];
      RemoveForbiddenAppend(a, b[..|b| - 1]);
    }
  }

  /** A single character survives exactly when it is not forbidden. */
  lemma RemoveForbiddenChar(c: char)
    ensures RemoveForbidden([c]) == if IsForbidden(c) then [] else [c]
  {
    assert [c][..0] == [];
  }

  /** Text without forbidden characters is left alone. */
  lemma {:induction false} RemoveForbiddenClean(s: string)
    requires forall i :: 0 <= i < |s| ==> !IsForbidden(s[i])
    ensures RemoveForbidden(s) == s
  {
    if s != [] {
      RemoveForbiddenClean(s[..|s| - 1]);
    }
  }

  /** Cleaning a cleaned name changes nothing. */
  lemma SanitizeIdempotent(name: string)
    ensures SanitizeFilename(SanitizeFilename(name)) == SanitizeFilename(name)
  {
    var once := SanitizeFilename(name);
    SanitizedIsClean(name);
    RemoveForbiddenClean(once);
    StripIdempotent(RemoveForbidden(name));
  }

  // ---------------------------------------------------------------- sampling

  function Min(a: int, b: int): int { if a <= b then a else b }
  function Max(a: int, b: int): int { if a >= b then a else b }

  /** `list(range(lo, hi))`. */
  function Range(lo: int, hi: int): (r: seq<int>)
    ensures |r| == Max(0, hi - lo)
    ensures forall i :: 0 <= i < |r| ==> r[i] == lo + i
    decreases hi - lo
  {
    if hi <= lo then [] else Range(lo, hi - 1) + [hi - 1]
  }

  /** The list before `sorted(list(set(…)))`: the first fifteen pages, then the last five that are not among them. */
  function SampleCandidates(n: nat): seq<int> {
    Range(0, Min(15, n)) + Range(Max(15, n - 5), n)
  }

  predicate StrictlyIncreasing(s: seq<int>) {
    forall i, j :: 0 <= i < j < |s| ==> s[i] < s[j]
  }

  function Elements(s: seq<int>): set<int> {
    set x | x in s
  }

  lemma ElementsEmpty(s: seq<int>)
    ensures Elements(s) == {} <==> s == []
  {
    if s != [] {
      assert s[0] in Elements(s);
    }
  }

  /** The head of a strictly increasing list is its least element. */
  lemma HeadIsLeast(a: seq<int>, x: int)
    requires a != [] && StrictlyIncreasing(a) && x in Elements(a)
    ensures a[0] <= x
  {
    var i :| 0 <= i < |a| && a[i] == x;
    if i > 0 {
      assert a[0] < a[i];
    }
  }

  /** Dropping an equal smallest element keeps the inclusion of the remaining elements. */
  lemma TailElementsIncluded(a: seq<int>, b: seq<int>)
    requires a != [] && b != [] && a[0] == b[0]
    requires StrictlyIncreasing(a) && Elements(a) <= Elements(b)
    ensures Elements(a[1..]) <= Elements(b[1..])
  {
    forall x | x in Elements(a[1..]) ensures x in Elements(b[1..]) {
      var k :| 0 <= k < |a[1..]| && a[1..][k] == x;
      assert a[k + 1] == x && x != a[0];
      assert x in Elements(b);
      var m :| 0 <= m < |b| && b[m] == x;
      assert b[1..][m - 1] == x;
    }
  }

  /** Two strictly increasing lists with the same elements are equal: `sorted(set(s))` is determined by the set. */
  lemma {:induction false} SortedListUnique(a: seq<int>, b: seq<int>)
    requires StrictlyIncreasing(a) && StrictlyIncreasing(b) && Elements(a) == Elements(b)
    ensures a == b
    decreases |a|
  {
    ElementsEmpty(a);
    ElementsEmpty(b);
    if a != [] && b != [] {
      HeadIsLeast(a, b[0]);
      HeadIsLeast(b, a[0]);
      TailElementsIncluded(a, b);
      TailElementsIncluded(b, a);
      SortedListUnique(a[1..], b[1..]);
      assert a == [a[0]] + a[1..] && b == [b[0]] + b[1..];
    }
  }

  /** Where each candidate page sits: the first block counts up from 0, the second from `max(15, n - 5)`. */
  lemma CandidatesShape(n: nat)
    ensures var c := SampleCandidates(n);
      && |c| == Min(15, n) + Max(0, n - Max(15, n - 5))
      && (forall i :: 0 <= i < Min(15, n) ==> c[i] == i)
      && (forall i :: Min(15, n) <= i < |c| ==> c[i] == Max(15, n - 5) + (i - Min(15, n)))
  {
    var lo, hi := Range(0, Min(15, n)), Range(Max(15, n - 5), n);
    assert SampleCandidates(n) == lo + hi;
  }

  lemma CandidatesIncreasing(n: nat)
    ensures StrictlyIncreasing(SampleCandidates(n))
  {
    CandidatesShape(n);
  }

  /** The candidates lie in `[0, n)` and are at most 20. */
  lemma CandidatesBounds(n: nat)
    ensures forall i :: 0 <= i < |SampleCandidates(n)| ==> 0 <= SampleCandidates(n)[i] < n
    ensures |SampleCandidates(n)| == Min(20, n)
  {
    CandidatesShape(n);
    if n <= 15 {
      assert Min(15, n) == n && Max(0, n - Max(15, n - 5)) == 0;
    } else if n <= 20 {
      assert Min(15, n) == 15 && Max(15, n - 5) == 15;
    } else {
      assert Min(15, n) == 15 && Max(15, n - 5) == n - 5;
    }
  }

  /** A document of at most 20 pages is sampled whole. */
  lemma ShortDocumentSampledWhole(n: nat)
    requires n <= 20
    ensures SampleCandidates(n) == Range(0, n)
  {
    CandidatesShape(n);
    CandidatesBounds(n);
    var c, r := SampleCandidates(n), Range(0, n);
    forall i | 0 <= i < n ensures c[i] == r[i] {
      if i >= Min(15, n) {
        assert Max(15, n - 5) == 15 && Min(15, n) == 15;
      }
    }
  }

  /** The candidates hold the first `min(15, n)` pages and the last five. */
  lemma CandidatesCover(n: nat)
    ensures forall p :: 0 <= p < Min(15, n) ==> p in SampleCandidates(n)
    ensures forall p :: n - 5 <= p < n && 0 <= p ==> p in SampleCandidates(n)
  {
    CandidatesShape(n);
    var c := SampleCandidates(n);
    forall p | 0 <= p < Min(15, n) ensures p in c {
      assert c[p] == p;
    }
    forall p | n - 5 <= p < n && 0 <= p ensures p in c {
      if p >= Min(15, n) {
        assert c[Min(15, n) + (p - Max(15, n - 5))] == p;
      } else {
        assert c[p] == p;
      }
    }
  }

  /**
    `pages_to_analyze`: the candidates are already strictly increasing, so
    `sorted(list(set(candidates)))` is the candidate list itself; it lies in
    `[0, n)`, has at most 20 pages, is every page when `n <= 20`, and holds the
    first `min(15, n)` and the last five pages.
  */
  lemma SampledPages(n: nat, pages: seq<int>)
    requires StrictlyIncreasing(pages) && Elements(pages) == Elements(SampleCandidates(n))
    ensures pages == SampleCandidates(n)
    ensures forall i :: 0 <= i < |pages| ==> 0 <= pages[i] < n
    ensures |pages| <= 20
    ensures n <= 20 ==> pages == Range(0, n)
    ensures forall p :: 0 <= p < Min(15, n) ==> p in pages
    ensures forall p :: n - 5 <= p < n && 0 <= p ==> p in pages
  {
    CandidatesIncreasing(n);
    SortedListUnique(pages, SampleCandidates(n));
    CandidatesBounds(n);
    CandidatesCover(n);
    if n <= 20 {
      ShortDocumentSampledWhole(n);
    }
  }

  // ---------------------------------------------------------------- table of contents

  /**
    One entry of the parsed JSON list: its `title` (when present and a string)
    and its `page` (when present). Entries are dictionaries with integer pages.
  */
  datatype TocEntry = TocEntry(title: Option<string>, page: Option<int>)

  /** The sort key `x.get('page', float('inf'))`. */
  datatype Key = At(n: int) | Infinite

  function KeyOf(e: TocEntry): Key {
    match e.page
    case Some(p) => At(p)
    case None => Infinite
  }

  predicate KeyLe(a: Key, b: Key) {
    b.Infinite? || (a.At? && a.n <= b.n)
  }

  predicate SortedByPage(t: seq<TocEntry>) {
    forall i, j :: 0 <= i < j < |t| ==> KeyLe(KeyOf(t[i]), KeyOf(t[j]))
  }

  /** Insert `e` after every entry whose key is not larger: a stable insertion. */
  function Insert(e: TocEntry, s: seq<TocEntry>): (r: seq<TocEntry>)
    ensures multiset(r) == multiset(s) + multiset{e}
    ensures |r| == |s| + 1
  {
    if s == [] then [e]
    else if KeyLe(KeyOf(s[0]), KeyOf(e)) then
      assert s == [s[0]] + s[1..];
      [s[0]] + Insert(e, s[1..])
    else [e] + s
  }

  lemma {:induction false} InsertSorted(e: TocEntry, s: seq<TocEntry>)
    requires SortedByPage(s)
    ensures SortedByPage(Insert(e, s))
  {
    if s != [] && KeyLe(KeyOf(s[0]), KeyOf(e)) {
      var rest := Insert(e, s[1..]);
      InsertSorted(e, s[1..]);
      forall i | 0 <= i < |rest| ensures KeyLe(KeyOf(s[0]), KeyOf(rest[i])) {
        assert rest[i] in multiset(rest);
        if rest[i] != e {
          assert rest[i] in s[1..];
        }
      }
      ConsSorted(s[0], rest);
    } else if s != [] {
      forall j | 0 <= j < |s| ensures KeyLe(KeyOf(e), KeyOf(s[j])) {
        if j > 0 {
          assert KeyLe(KeyOf(s[0]), KeyOf(s[j]));
        }
      }
      ConsSorted(e, s);
    }
  }

  /** An entry no later than every entry of a sorted table can go in front of it. */
  lemma ConsSorted(x: TocEntry, rest: seq<TocEntry>)
    requires SortedByPage(rest)
    requires forall i :: 0 <= i < |rest| ==> KeyLe(KeyOf(x), KeyOf(rest[i]))
    ensures SortedByPage([x] + rest)
  {
    var r := [x] + rest;
    forall i, j | 0 <= i < j < |r| ensures KeyLe(KeyOf(r[i]), KeyOf(r[j])) {
      assert r[j] == rest[j - 1];
      if i > 0 {
        assert r[i] == rest[i - 1];
      }
    }
  }

  /** `toc.sort(key=lambda x: x.get('page', float('inf')))`, Python's stable sort written as insertion sort. */
  function SortToc(t: seq<TocEntry>): (r: seq<TocEntry>)
    ensures |r| == |t|
  {
    if t == [] then [] else Insert(t[|t| - 1], SortToc(t[..|t| - 1]))
  }

  /** The sorted table is ordered by page and is a permutation of the parsed one. */
  lemma {:induction false} SortTocCorrect(t: seq<TocEntry>)
    ensures SortedByPage(SortToc(t))
    ensures multiset(SortToc(t)) == multiset(t)
  {
    if t != [] {
      SortTocCorrect(t[..|t| - 1]);
      InsertSorted(t[|t| - 1], SortToc(t[..|t| - 1]));
      assert t == t[..|t| - 1] + [t[|t| - 1]];
    }
  }

  /** Entries without `page` come after every entry with one. */
  lemma PagelessLast(t: seq<TocEntry>, i: int, j: int)
    requires 0 <= i < j < |t|
    ensures SortToc(t)[i].page.None? ==> SortToc(t)[j].page.None?
  {
    SortTocCorrect(t);
  }

  // ---------------------------------------------------------------- chapters

  /** One written chapter: its 0-based position in the sorted table, its entry's title and its 0-based page range. */
  datatype Chapter = Chapter(position: nat, title: string, first: int, last: int)

  /** `f"{i+1:02d}_{title}.pdf"` with the cleaned title: the name the chapter is saved under. */
  function FileName(c: Chapter): string {
    TwoDigits(c.position + 1) + Suffix(c)
  }

  /** What follows the number in a chapter's file name: `_`, the cleaned title and `.pdf`. */
  function Suffix(c: Chapter): (r: string)
    ensures r != [] && r[0] == '_'
  {
    "_" + SanitizeFilename(c.title) + ".pdf"
  }

  /**
    The chapter at `position` of the sorted table `t` of a document of `n`
    pages, as the loop body is written: `None` when the body skips the entry —
    a missing title or page, a start outside the document, or (line 103) a
    following entry that has no `page`.
  */
  function ChapterAsWritten(t: seq<TocEntry>, position: nat, n: nat): Option<Chapter>
    requires position < |t|
  {
    var e := t[position];
    if e.title.None? || e.page.None? then None
    else
      var first := e.page.value - 1;
      if first < 0 || first >= n then None
      else if position + 1 < |t| && t[position + 1].page.None? then None
      else
        var last := if position + 1 < |t| then t[position + 1].page.value - 2 else n - 1;
        Some(Chapter(position, e.title.value, first, if last < first then first else last))
  }

  /**
    The chapter at `position` as the loop evidently means it: a following entry
    without `page` ends the table, so the chapter runs to the last page.
  */
  function ChapterAt(t: seq<TocEntry>, position: nat, n: nat): (r: Option<Chapter>)
    requires position < |t|
    ensures r.Some? <==> t[position].title.Some? && t[position].page.Some? && 1 <= t[position].page.value <= n
    ensures r.Some? ==> 0 <= r.value.first <= r.value.last && r.value.first == t[position].page.value - 1
  {
    var e := t[position];
    if e.title.None? || e.page.None? then None
    else
      var first := e.page.value - 1;
      if first < 0 || first >= n then None
      else
        var last := if position + 1 < |t| && t[position + 1].page.Some? then t[position + 1].page.value - 2 else n - 1;
        Some(Chapter(position, e.title.value, first, if last < first then first else last))
  }

  /** The chapters written for positions `0..k`, skipping those whose PDF copy or save raised (`failing`). */
  function Chapters(t: seq<TocEntry>, n: nat, failing: set<nat>, k: nat): seq<Chapter>
    requires k <= |t|
  {
    if k == 0 then []
    else
      var c := ChapterAt(t, k - 1, n);
      Chapters(t, n, failing, k - 1) + (if c.Some? && k - 1 !in failing then [c.value] else [])
  }

  /** The same loop as written. */
  function ChaptersAsWritten(t: seq<TocEntry>, n: nat, failing: set<nat>, k: nat): seq<Chapter>
    requires k <= |t|
  {
    if k == 0 then []
    else
      var c := ChapterAsWritten(t, k - 1, n);
      ChaptersAsWritten(t, n, failing, k - 1) + (if c.Some? && k - 1 !in failing then [c.value] else [])
  }

  /** An entry the loop can read: a title and a page inside the document. */
  predicate Valid(e: TocEntry, n: nat) {
    e.title.Some? && e.page.Some? && 1 <= e.page.value <= n
  }

  /** `split_count <= len(toc)`. */
  lemma {:induction false} ChaptersBounded(t: seq<TocEntry>, n: nat, failing: set<nat>, k: nat)
    requires k <= |t|
    ensures |Chapters(t, n, failing, k)| <= k
  {
    if k > 0 {
      ChaptersBounded(t, n, failing, k - 1);
    }
  }

  /** The chapters come in table order, each one the intended chapter of its entry. */
  lemma {:induction false} ChaptersInOrder(t: seq<TocEntry>, n: nat, failing: set<nat>, k: nat)
    requires k <= |t|
    ensures forall m :: 0 <= m < |Chapters(t, n, failing, k)| ==>
              var c := Chapters(t, n, failing, k)[m];
              c.position < k && ChapterAt(t, c.position, n) == Some(c)
    ensures forall m, m' :: 0 <= m < m' < |Chapters(t, n, failing, k)| ==>
              Chapters(t, n, failing, k)[m].position < Chapters(t, n, failing, k)[m'].position
  {
    if k > 0 {
      ChaptersInOrder(t, n, failing, k - 1);
      var prev := Chapters(t, n, failing, k - 1);
      var c := ChapterAt(t, k - 1, n);
      var added := if c.Some? && k - 1 !in failing then [c.value] else [];
      assert Chapters(t, n, failing, k) == prev + added;
      forall m | 0 <= m < |prev| ensures prev[m].position < k - 1 {
      }
    }
  }

  function Positions(cs: seq<Chapter>): set<nat> {
    set c | c in cs :: c.position
  }

  /**
    With the intended reading, the written chapters are exactly the readable
    entries whose copy succeeded: malformed entries are skipped without ending
    the loop, and nothing readable is lost.
  */
  lemma {:induction false} ChaptersAreReadableEntries(t: seq<TocEntry>, n: nat, failing: set<nat>, k: nat)
    requires k <= |t|
    ensures Positions(Chapters(t, n, failing, k)) == set p | 0 <= p < k && Valid(t[p], n) && p !in failing
  {
    if k > 0 {
      ChaptersAreReadableEntries(t, n, failing, k - 1);
      var prev := Chapters(t, n, failing, k - 1);
      var c := ChapterAt(t, k - 1, n);
      if c.Some? && k - 1 !in failing {
        assert Positions(prev + [c.value]) == Positions(prev) + {k - 1};
      } else {
        assert Positions(prev + []) == Positions(prev);
      }
    }
  }

  predicate PageBefore(a: TocEntry, b: TocEntry) {
    a.page.Some? && b.page.Some? && a.page.value < b.page.value
  }

  /**
    For a table of readable entries with strictly increasing pages, every
    chapter runs up to the page before the next one starts, and the last runs to
    the end of the document: the chapters tile the pages from the first entry on.
  */
  lemma ChaptersContiguous(t: seq<TocEntry>, n: nat)
    requires forall i :: 0 <= i < |t| ==> Valid(t[i], n)
    requires forall i :: 0 <= i < |t| - 1 ==> PageBefore(t[i], t[i + 1])
    ensures forall i :: 0 <= i < |t| ==> ChapterAt(t, i, n).Some?
    ensures forall i :: 0 <= i < |t| - 1 ==> ChapterAt(t, i, n).value.last + 1 == ChapterAt(t, i + 1, n).value.first
    ensures |t| > 0 ==> ChapterAt(t, 0, n).value.first == t[0].page.value - 1
    ensures |t| > 0 ==> ChapterAt(t, |t| - 1, n).value.last == n - 1
  {
  }

  /**
    The positions the loop as written loses: those followed by an entry without
    `page`, whose `toc[i+1]['page']` raises `KeyError`.
  */
  function Lost(t: seq<TocEntry>): set<nat> {
    set p: nat | p < |t| && LostAt(t, p)
  }

  predicate LostAt(t: seq<TocEntry>, p: nat) {
    p + 1 < |t| && t[p + 1].page.None?
  }

  /**
    What the loop as written writes: the intended chapters, except that the
    entries followed by an entry without `page` are skipped as well.
  */
  lemma {:induction false} AsWrittenSkipsLost(t: seq<TocEntry>, n: nat, failing: set<nat>, k: nat)
    requires k <= |t|
    ensures ChaptersAsWritten(t, n, failing, k) == Chapters(t, n, failing + Lost(t), k)
  {
    if k > 0 {
      AsWrittenSkipsLost(t, n, failing, k - 1);
      var p := k - 1;
      assert p in Lost(t) <==> LostAt(t, p);
    }
  }

  /**
    Over all inputs, the loop as written writes exactly the readable entries
    whose copy succeeded and whose successor, if any, has a `page`.
  */
  lemma AsWrittenEntries(t: seq<TocEntry>, n: nat, failing: set<nat>)
    ensures Positions(ChaptersAsWritten(t, n, failing, |t|)) ==
      set p | 0 <= p < |t| && Valid(t[p], n) && p !in failing && (p + 1 < |t| ==> t[p + 1].page.Some?)
  {
    AsWrittenSkipsLost(t, n, failing, |t|);
    ChaptersAreReadableEntries(t, n, failing + Lost(t), |t|);
    var lhs := set p | 0 <= p < |t| && Valid(t[p], n) && p !in failing + Lost(t);
    var rhs := set p | 0 <= p < |t| && Valid(t[p], n) && p !in failing && (p + 1 < |t| ==> t[p + 1].page.Some?);
    forall p | p in lhs ensures p in rhs {
      assert p !in Lost(t);
    }
    forall p | p in rhs ensures p in lhs {
      if p + 1 < |t| {
        assert t[p + 1].page.Some?;
      }
    }
  }

  /** The chapter skipped by the loop as written although its entry is readable. */
  const MissedToc: seq<TocEntry> := [TocEntry(Some("A"), Some(1)), TocEntry(Some("B"), None)]

  /**
    As written, a readable chapter followed by an entry without `page` is lost:
    for `[{title: A, page: 1}, {title: B}]` in a ten-page document nothing is
    written, where the intended loop writes chapter A over all ten pages.
  */
  lemma LastChapterLostAsWritten()
    ensures Valid(MissedToc[0], 10)
    ensures ChaptersAsWritten(MissedToc, 10, {}, 2) == []
    ensures Chapters(MissedToc, 10, {}, 2) == [Chapter(0, "A", 0, 9)]
  {
    assert ChapterAsWritten(MissedToc, 0, 10).None?;
    assert ChapterAsWritten(MissedToc, 1, 10).None?;
    assert ChaptersAsWritten(MissedToc, 10, {}, 1) == [];
    assert ChapterAt(MissedToc, 1, 10).None?;
    assert Chapters(MissedToc, 10, {}, 1) == [Chapter(0, "A", 0, 9)];
  }

  // ---------------------------------------------------------------- the whole run

  /** What the model's table-of-contents call gave: a parsed JSON list, a reply that does not parse, or an exception. */
  datatype TocReply = Parsed(entries: seq<TocEntry>) | Unparsable(message: string) | CallFailed(message: string)

  /** The return value `(split_count, output_dir)` together with the events and the chapters written. */
  datatype SplitRun = SplitRun(count: int, outputDir: Option<string>, events: seq<Event>, chapters: seq<Chapter>)

  /** `<desktop>/AI 工具輸出/<output_folder_name>/<PDF name without extension>`. */
  function OutputDir(home: string, dirs: set<string>, inputPath: string, folderName: string): string {
    var base := Join(Desktop.DesktopPath(home, dirs), Desktop.BaseOutputFolderName);
    Join(Join(base, folderName), SplitExt(Basename(inputPath)).0)
  }

  const InitStatus: Event := Status(None, "初始化模型...", Some(5))
  const PrepareStatus: Event := Status(None, "準備分析頁面...", Some(10))
  const AnalyseStatus: Event := Status(None, "AI 正在分析目錄結構...", Some(25))
  const SplitStatus: Event := Status(None, "正在根據目錄進行分割...", Some(70))
  const NoTocMessage: string := "AI 未能分析出目錄，無法分割。"

  /** The progress event after writing chapter `c` of a table of `total` entries. */
  function ChapterEvent(c: Chapter, total: nat): Event {
    Progress(c.position + 1, total, "已分割: " + SanitizeFilename(c.title))
  }

  /** The progress events of the chapters written, one per chapter and in their order. */
  function ChapterEvents(cs: seq<Chapter>, total: nat): (r: seq<Event>)
    ensures |r| == |cs|
    ensures forall m :: 0 <= m < |cs| ==> r[m] == ChapterEvent(cs[m], total)
  {
    seq(|cs|, m requires 0 <= m < |cs| => ChapterEvent(cs[m], total))
  }

  /**
    The specification of `run_pdf_split` for a document of `n` pages.
    `initError` is an exception of the model's construction or of opening the
    PDF, `folderError` one of creating the output folder, and `failing` the
    table positions whose chapter copy or save raised.
  */
  function PdfSplit(home: string, dirs: set<string>, inputPath: string, folderName: string, n: nat,
                    initError: Option<string>, reply: TocReply, folderError: Option<string>, failing: set<nat>): SplitRun
  {
    if initError.Some? then SplitRun(-1, None, [InitStatus, Error("開啟 PDF 失敗: " + initError.value)], [])
    else
      var asked := [InitStatus, PrepareStatus, AnalyseStatus];
      match reply
      case Unparsable(e) => SplitRun(-1, None, asked + [Error("AI 回應格式錯誤: " + e)], [])
      case CallFailed(e) => SplitRun(-1, None, asked + [Error("AI 分析失敗: " + e)], [])
      case Parsed(entries) =>
        if entries == [] then SplitRun(0, None, asked + [Error(NoTocMessage)], [])
        else if folderError.Some? then
          SplitRun(-1, None, asked + [SplitStatus, Error("建立桌面資料夾失敗: " + folderError.value)], [])
        else
          var t := SortToc(entries);
          var cs := ChaptersAsWritten(t, n, failing, |t|);
          SplitRun(|cs|, Some(OutputDir(home, dirs, inputPath, folderName)), asked + [SplitStatus] + ChapterEvents(cs, |t|), cs)
  }

  /** The chapter loop of `run_pdf_split` over the sorted table: the chapters written and their progress events. */
  method SplitChapters(toc: seq<TocEntry>, n: nat, failing: set<nat>) returns (chapters: seq<Chapter>, events: seq<Event>)
    ensures chapters == ChaptersAsWritten(toc, n, failing, |toc|)
    ensures events == ChapterEvents(chapters, |toc|)
  {
    chapters, events := [], [];
    var i := 0;
    while i < |toc|
      invariant 0 <= i <= |toc|
      invariant chapters == ChaptersAsWritten(toc, n, failing, i)
      invariant events == ChapterEvents(chapters, |toc|)
    {
      chapters, events := SplitOne(toc, n, failing, i, chapters, events);
      i := i + 1;
    }
  }

  /** One pass of the chapter loop: entry `i` is written, and reported, unless it is skipped or fails. */
  method SplitOne(toc: seq<TocEntry>, n: nat, failing: set<nat>, i: nat, chapters: seq<Chapter>, events: seq<Event>)
    returns (chapters': seq<Chapter>, events': seq<Event>)
    requires i < |toc|
    requires chapters == ChaptersAsWritten(toc, n, failing, i) && events == ChapterEvents(chapters, |toc|)
    ensures chapters' == ChaptersAsWritten(toc, n, failing, i + 1) && events' == ChapterEvents(chapters', |toc|)
  {
    var chapter := ReadChapter(toc, i, n);
    ChaptersStep(toc, n, failing, i);
    if chapter.Some? && i !in failing {
      ChapterEventsSnoc(chapters, chapter.value, |toc|);
      chapters' := chapters + [chapter.value];
      events' := events + [ChapterEvent(chapter.value, |toc|)];
    } else {
      chapters', events' := chapters, events;
    }
  }

  lemma ChaptersStep(t: seq<TocEntry>, n: nat, failing: set<nat>, i: nat)
    requires i < |t|
    ensures ChapterAsWritten(t, i, n).Some? && i !in failing ==>
      ChaptersAsWritten(t, n, failing, i + 1) == ChaptersAsWritten(t, n, failing, i) + [ChapterAsWritten(t, i, n).value]
    ensures !(ChapterAsWritten(t, i, n).Some? && i !in failing) ==>
      ChaptersAsWritten(t, n, failing, i + 1) == ChaptersAsWritten(t, n, failing, i)
  {
  }

  /**
    The body of the chapter loop for entry `i`: the page range to copy, or
    `None` when the entry is skipped — by the page check, or by the `KeyError`
    handler when the entry or the next one lacks a field. A skipped readable
    entry is one the intended reading would write.
  */
  method ReadChapter(toc: seq<TocEntry>, i: nat, n: nat) returns (chapter: Option<Chapter>)
    requires i < |toc|
    ensures chapter == ChapterAsWritten(toc, i, n)
    ensures chapter.Some? ==> chapter == ChapterAt(toc, i, n)
    ensures chapter.None? && ChapterAt(toc, i, n).Some? ==> i + 1 < |toc| && toc[i + 1].page.None?
  {
    var item := toc[i];
    chapter := None;
    if item.title.None? || item.page.None? {
      return;
    }
    var first := item.page.value - 1;
    if first < 0 || first >= n {
      return;
    }
    var last: int;
    if i + 1 < |toc| {
      if toc[i + 1].page.None? {
        return;
      }
      last := toc[i + 1].page.value - 2;
    } else {
      last := n - 1;
    }
    if last < first {
      last := first;
    }
    chapter := Some(Chapter(i, item.title.value, first, last));
  }

  lemma ChapterEventsSnoc(cs: seq<Chapter>, c: Chapter, total: nat)
    ensures ChapterEvents(cs + [c], total) == ChapterEvents(cs, total) + [ChapterEvent(c, total)]
  {
    var r, p := ChapterEvents(cs + [c], total), ChapterEvents(cs, total) + [ChapterEvent(c, total)];
    forall m | 0 <= m < |r| ensures r[m] == p[m] {
      if m < |cs| {
        assert (cs + [c])[m] == cs[m];
      }
    }
  }

  /** `run_pdf_split`: the steps up to the sort, then the chapter loop over the sorted table. */
  method RunPdfSplit(home: string, dirs: set<string>, inputPath: string, folderName: string, n: nat,
                     initError: Option<string>, reply: TocReply, folderError: Option<string>, failing: set<nat>)
    returns (run: SplitRun)
    ensures run == PdfSplit(home, dirs, inputPath, folderName, n, initError, reply, folderError, failing)
  {
    if initError.Some? {
      return SplitRun(-1, None, [InitStatus, Error("開啟 PDF 失敗: " + initError.value)], []);
    }
    var asked := [InitStatus, PrepareStatus, AnalyseStatus];
    var toc: seq<TocEntry>;
    match reply {
      case Unparsable(e) =>
        return SplitRun(-1, None, asked + [Error("AI 回應格式錯誤: " + e)], []);
      case CallFailed(e) =>
        return SplitRun(-1, None, asked + [Error("AI 分析失敗: " + e)], []);
      case Parsed(entries) =>
        toc := entries;
    }
    if toc == [] {
      return SplitRun(0, None, asked + [Error(NoTocMessage)], []);
    }
    toc := SortToc(toc);
    if folderError.Some? {
      return SplitRun(-1, None, asked + [SplitStatus, Error("建立桌面資料夾失敗: " + folderError.value)], []);
    }
    var outputDir := OutputDir(home, dirs, inputPath, folderName);
    var chapters, progress := SplitChapters(toc, n, failing);
    run := SplitRun(|chapters|, Some(outputDir), asked + [SplitStatus] + progress, chapters);
  }

  /**
    The return value reports the outcome: -1 for a failed start, an unusable
    reply or a folder that cannot be made; 0 without a folder for an empty
    table; otherwise the number of chapters written, at most the table's length,
    and the folder. Every run without a folder ends with its only `error` event.
  */
  lemma PdfSplitOutcome(home: string, dirs: set<string>, inputPath: string, folderName: string, n: nat,
                        initError: Option<string>, reply: TocReply, folderError: Option<string>, failing: set<nat>)
    ensures var run := PdfSplit(home, dirs, inputPath, folderName, n, initError, reply, folderError, failing);
      && (run.count == -1 <==> initError.Some? || !reply.Parsed? || (reply.entries != [] && folderError.Some?))
      && (run.outputDir.None? && run.count == 0 <==> initError.None? && reply == Parsed([]))
      && (run.outputDir.Some? ==> run.count == |run.chapters| && 0 <= run.count <= |reply.entries| &&
                                  run.outputDir.value == OutputDir(home, dirs, inputPath, folderName))
      && (run.outputDir.None? ==> run.events[|run.events| - 1].Error? && run.chapters == [])
      && run.events[0] == InitStatus
  {
    var run := PdfSplit(home, dirs, inputPath, folderName, n, initError, reply, folderError, failing);
    if run.outputDir.Some? {
      var t := SortToc(reply.entries);
      AsWrittenSkipsLost(t, n, failing, |t|);
      ChaptersBounded(t, n, failing + Lost(t), |t|);
    }
  }

  /**
    No chapter file overwrites another: the chapters of a run come from distinct
    table positions, so their output paths in the run's folder are distinct.
  */
  lemma SplitFilesDistinct(home: string, dirs: set<string>, inputPath: string, folderName: string, n: nat,
                           initError: Option<string>, reply: TocReply, folderError: Option<string>, failing: set<nat>,
                           m: nat, m': nat)
    requires var run := PdfSplit(home, dirs, inputPath, folderName, n, initError, reply, folderError, failing);
      run.outputDir.Some? && m < m' < |run.chapters|
    ensures var run := PdfSplit(home, dirs, inputPath, folderName, n, initError, reply, folderError, failing);
      Join(run.outputDir.value, FileName(run.chapters[m])) != Join(run.outputDir.value, FileName(run.chapters[m']))
  {
    var run := PdfSplit(home, dirs, inputPath, folderName, n, initError, reply, folderError, failing);
    var t := SortToc(reply.entries);
    AsWrittenSkipsLost(t, n, failing, |t|);
    ChaptersInOrder(t, n, failing + Lost(t), |t|);
    var a, b := run.chapters[m], run.chapters[m'];
    assert a.position < b.position;
    if Join(run.outputDir.value, FileName(a)) == Join(run.outputDir.value, FileName(b)) {
      FileNameStartsWithDigit(a);
      FileNameStartsWithDigit(b);
      JoinInjective(run.outputDir.value, FileName(a), FileName(b));
      FileNamesDiffer(a, b);
    }
  }

  lemma FileNameStartsWithDigit(c: Chapter)
    ensures FileName(c) != [] && '0' <= FileName(c)[0] <= '9'
  {
    assert FileName(c)[0] == TwoDigits(c.position + 1)[0];
  }

  /** The number a file name starts with: the value of its leading decimal digits. */
  function NumberOf(name: string): int {
    DecimalValue(name[..LeadingDigits(name)])
  }

  /** How many decimal digits `s` starts with. */
  function LeadingDigits(s: string): (k: nat)
    ensures k <= |s|
  {
    if s != [] && '0' <= s[0] <= '9' then 1 + LeadingDigits(s[1..]) else 0
  }

  /** The number a chapter's file name starts with is its 1-based position in the table. */
  lemma FileNameNumber(c: Chapter)
    ensures NumberOf(FileName(c)) == c.position + 1
  {
    var d, name := TwoDigits(c.position + 1), FileName(c);
    assert name[..|d|] == d;
    NumberBeforeUnderscore(name, |d|);
  }

  /** A name whose first `k` characters are digits followed by `_` starts with the number those digits denote. */
  lemma NumberBeforeUnderscore(name: string, k: nat)
    requires k < |name| && name[k] == '_'
    requires forall i :: 0 <= i < k ==> '0' <= name[i] <= '9'
    ensures NumberOf(name) == DecimalValue(name[..k])
  {
    LeadingDigitsOf(name[..k], name[k..]);
    assert name[..k] + name[k..] == name;
  }

  /** Chapters at different positions are saved under different names. */
  lemma FileNamesDiffer(a: Chapter, b: Chapter)
    requires a.position != b.position
    ensures FileName(a) != FileName(b)
  {
    FileNameNumber(a);
    FileNameNumber(b);
  }

  lemma {:induction false} LeadingDigitsOf(d: string, r: string)
    requires forall i :: 0 <= i < |d| ==> '0' <= d[i] <= '9'
    requires r != [] && r[0] == '_'
    ensures LeadingDigits(d + r) == |d|
  {
    if d != [] {
      assert (d + r)[1..] == d[1..] + r;
      LeadingDigitsOf(d[1..], r);
    } else {
      assert d + r == r;
    }
  }

  /**
    The split keeps the transforms' event promise: a run that returns a folder
    puts status and progress events only; any other run ends with its only
    `error` event.
  */
  lemma PdfSplitReports(home: string, dirs: set<string>, inputPath: string, folderName: string, n: nat,
                        initError: Option<string>, reply: TocReply, folderError: Option<string>, failing: set<nat>)
    ensures var run := PdfSplit(home, dirs, inputPath, folderName, n, initError, reply, folderError, failing);
      && (run.outputDir.Some? ==> CountTerminal(run.events) == 0)
      && (run.outputDir.None? ==> run.events[|run.events| - 1].Error? && CountTerminal(run.events) == 1)
  {
    if initError.Some? || !reply.Parsed? || reply.entries == [] || folderError.Some? {
      SplitFailureReports(home, dirs, inputPath, folderName, n, initError, reply, folderError, failing);
    } else {
      SplitSuccessQuiet(home, dirs, inputPath, folderName, n, reply.entries, failing);
    }
  }

  lemma SplitFailureReports(home: string, dirs: set<string>, inputPath: string, folderName: string, n: nat,
                            initError: Option<string>, reply: TocReply, folderError: Option<string>, failing: set<nat>)
    requires initError.Some? || !reply.Parsed? || reply.entries == [] || folderError.Some?
    ensures var run := PdfSplit(home, dirs, inputPath, folderName, n, initError, reply, folderError, failing);
      && run.outputDir.None?
      && run.events[|run.events| - 1].Error? && CountTerminal(run.events) == 1
  {
    var asked := [InitStatus, PrepareStatus, AnalyseStatus];
    if initError.Some? {
      var e := Error("開啟 PDF 失敗: " + initError.value);
      assert PdfSplit(home, dirs, inputPath, folderName, n, initError, reply, folderError, failing).events == [InitStatus] + [e];
      StatusesThenError([InitStatus], e);
    } else if reply.Unparsable? {
      StatusesThenError(asked, Error("AI 回應格式錯誤: " + reply.message));
    } else if reply.CallFailed? {
      StatusesThenError(asked, Error("AI 分析失敗: " + reply.message));
    } else if reply.entries == [] {
      StatusesThenError(asked, Error(NoTocMessage));
    } else {
      var e := Error("建立桌面資料夾失敗: " + folderError.value);
      StatusesThenError(asked + [SplitStatus], e);
      assert asked + [SplitStatus] + [e] == asked + [SplitStatus, e];
    }
  }

  lemma SplitSuccessQuiet(home: string, dirs: set<string>, inputPath: string, folderName: string, n: nat,
                          entries: seq<TocEntry>, failing: set<nat>)
    requires entries != []
    ensures var run := PdfSplit(home, dirs, inputPath, folderName, n, None, Parsed(entries), None, failing);
      run.outputDir.Some? && CountTerminal(run.events) == 0
  {
    var t := SortToc(entries);
    var cs := ChaptersAsWritten(t, n, failing, |t|);
    var statuses := [InitStatus, PrepareStatus, AnalyseStatus, SplitStatus];
    assert [InitStatus, PrepareStatus, AnalyseStatus] + [SplitStatus] == statuses;
    NoTerminal(statuses);
    ChapterEventsQuiet(cs, |t|);
    CountTerminalAppend(statuses, ChapterEvents(cs, |t|));
  }

  /** Chapter progress events are never terminal. */
  lemma ChapterEventsQuiet(cs: seq<Chapter>, total: nat)
    ensures CountTerminal(ChapterEvents(cs, total)) == 0
  {
    NoTerminal(ChapterEvents(cs, total));
  }

}
