# AI document toolbox — a Dafny model of its task pipeline

The toolbox is a small Flask server. A user uploads a PDF, an image, or a
Word or text file and picks a task: OCR and translation, summary, slides,
a four-file "full report", or splitting a PDF by its table of contents.

Processing goes in four stages:

- **Upload.** `process_task` checks the upload, saves it into a per-task
  scratch folder, registers a progress queue for the task, and puts the task
  record on one central FIFO.
- **Worker.** A single background worker takes records in order and runs the
  workflow for each one's type.
- **Steps.** Each workflow chains the transform scripts:
  - OCR/translation of PDF pages or of an image;
  - the Markdown summary written as a Word file;
  - the Word-to-slides conversion;
  - the table-of-contents splitter.
- **Delivery.** Results are copied into numbered files under
  `<Desktop>/AI 工具輸出/<category>`. Progress events go to the task's queue,
  which `/stream/<id>` forwards as server-sent events until the first
  `done`, `error` or `complete` event.

The model is written in the source's own form.

- **Pure parts are functions with lemmas.** This covers:
  - the summary's line classification;
  - the slide pager;
  - the page sampling, sorting and page arithmetic of the splitter;
  - the numbered-name probe.
- **Loops are methods proved against those functions:**
  - the OCR page loop;
  - the summary formatting;
  - the slide loop;
  - the chapter loop;
  - the desktop name probe;
  - the stream loop.
- **State that the source mutates is a class:**
  - the desktop file system (`Desktop.Disk`);
  - a task's progress queue (`App.Channel`);
  - the scratch folders (`App.ScratchArea`);
  - the server's central queue, unfinished-task counter and queue registry
    (`App.Server`).
- **Workflows are specified twice:** once as pure step-by-step specifications
  (`Workflows`), and once as imperative methods of `App.Server` that put their
  events on a `Channel`. Each method is proved to put exactly the events of its
  specification.
- **The outside world is an input.** This includes the model's replies, PDF,
  image and Word I/O, and the exceptions they raise. Each transform is modelled
  down to the events it puts and the boolean it returns.

Modules, one file each:

- `Common`: Option, Result, counting.
- `Text`: Python string functions.
- `Paths`: `os.path`.
- `Events`: the progress protocol.
- `Desktop`: `desktop_utils.py`.
- `TextSummarizer`: `text_summarizer.py`.
- `SummaryToPpt`: `summary_to_ppt.py`.
- `PdfOcr`: `pdf_ocr_translator.py`.
- `PdfSplitter`: `pdf_splitter.py`.
- `Workflows`: the six `run_*_workflow` functions of `app.py`.
- `App`: upload validation, the worker, the stream.

A missing optional value in the source (`None`, or an absent key) is
`Option.None` in the model. A missing task id or type is `""`, because the
source tests both with `not x`.

Specification functions carry no contract of their own; the lemmas and
methods in the table state what they mean. Each follows these lines of the
source:

- `App.AllowedFile`: `allowed_file`, app.py:134-135.
- `App.Validate`: the checks of `process_task`, app.py:555-573.
- `App.Dispatch`: the worker's dispatch on the task type, app.py:93-121.
- `App.Forward`: the loop of `/stream/<id>`, app.py:602-608.
- `Workflows.Workflow`: the table of workflows, app.py:99-111. The six
  workflows are `TextToPpt` (app.py:167-220), `FullReport` (app.py:223-295),
  `PdfToPpt` (app.py:298-346), `OcrWorkflow` (app.py:349-382),
  `SummarizeWorkflow` (app.py:385-419) and `SplitWorkflow` (app.py:422-452).
- `PdfSplitter.PdfSplit`: `run_pdf_split`, workflow_scripts/pdf_splitter.py:16-137.
- `PdfSplitter.SortToc`: the sort by page, workflow_scripts/pdf_splitter.py:77.
- `PdfSplitter.SanitizeFilename`: workflow_scripts/pdf_splitter.py:12-14.
- `PdfSplitter.SampleCandidates`: the sampled pages, workflow_scripts/pdf_splitter.py:39-40.
- `PdfSplitter.FileName`: the chapter's file name, workflow_scripts/pdf_splitter.py:114.
- `TextSummarizer.Summarization`: `run_summarization`, workflow_scripts/text_summarizer.py:44-149.
- `PdfOcr.PdfOcrRun`: `run_ocr_translation` and `run_ocr_only`, workflow_scripts/pdf_ocr_translator.py:60-102.
- `PdfOcr.ImageOcrRun`: `run_ocr_translation_for_image`, workflow_scripts/pdf_ocr_translator.py:104-127.
- `Desktop.DesktopPath`, `Desktop.BaseFolder`, `Desktop.TargetFolder`: the
  folders of desktop_utils.py:11-31.
- `Desktop.Candidate`, `Desktop.Probe`: the probed names, desktop_utils.py:36-40.
- `PdfSplitter.ChapterAsWritten` and `PdfSplitter.ChaptersAsWritten`: one pass
  of the chapter loop and the whole loop as written, workflow_scripts/pdf_splitter.py:90-131.
  `PdfSplitter.Chapters`: the same loop with a pageless successor ending the
  table instead of skipping the chapter before it (the corrected reading of
  lines 102-104).
- `TextSummarizer.Classify` and `TextSummarizer.ClassifyStripped`: the marker
  tests and the style chosen, workflow_scripts/text_summarizer.py:102-123.
  `TextSummarizer.MarkerOf` is the marker each style is written with, and
  `TextSummarizer.IsGap` what `\s+` matches after a marker.
- `TextSummarizer.Paragraphs`: the loop over the lines, blank ones skipped,
  workflow_scripts/text_summarizer.py:101-123.
- `SummaryToPpt.Step` and `SummaryToPpt.Run`: one pass of the paragraph loop
  and the whole loop, workflow_scripts/summary_to_ppt.py:46-185.
- `PdfOcr.PageChunk`: the text one page appends, workflow_scripts/pdf_ocr_translator.py:36-51.
  `PdfOcr.Accumulated`: `full_text` after the replied pages, and
  `PdfOcr.LoopEvents`: the start event and the page events,
  workflow_scripts/pdf_ocr_translator.py:22-58.
- `App.Runnable`: the worker's validity test, app.py:83-90.
- `Workflows.Finish`: the desktop copy and the `complete` event that end each
  workflow's `try`, app.py:201-210 (the other workflows repeat these lines).
- `Workflows.IsPdf`: the choice of OCR transform, app.py:360-361.

## Model

| member | source | states |
|---|---|---|
| Text.LStrip | workflow_scripts/text_summarizer.py:102 | `lstrip` drops exactly the leading whitespace: a suffix that starts with a non-space |
| Text.RStrip | workflow_scripts/text_summarizer.py:102 | `rstrip` drops exactly the trailing whitespace: a prefix that ends with a non-space |
| Text.StripIsSlice | workflow_scripts/text_summarizer.py:102 | `strip` keeps one contiguous slice that neither starts nor ends with whitespace |
| Text.StripIdempotent | workflow_scripts/text_summarizer.py:102 | stripping a stripped line changes nothing |
| Text.StripEmptyIffBlank | app.py:187 | `not s.strip()` holds exactly for empty or all-whitespace text |
| Text.ContentEnd | workflow_scripts/text_summarizer.py:102 | the trailing whitespace begins at a position after which everything is whitespace and before which is a non-space |
| Text.Lower | app.py:135 | `lower` maps each character and keeps the length |
| Text.NatToString | desktop_utils.py:39 | `str(n)` is decimal digits that denote `n`, with no leading zero, and a single digit exactly below 10 |
| Text.NatToStringInjective | desktop_utils.py:39 | distinct counters print differently |
| Text.TwoDigits | workflow_scripts/pdf_splitter.py:114 | `{n:02d}` denotes `n`: a zero before a single digit, otherwise exactly `str(n)` |
| Paths.LastIndexOf | app.py:135 | `rsplit('.', 1)` splits at the last dot: no dot follows the index |
| Paths.Join | desktop_utils.py:35 | `os.path.join` appends a relative name after the folder and its separator; an absolute name replaces the folder |
| Paths.Basename | desktop_utils.py:42 | `basename` is the slash-free tail of the path that a `/` (or the start of the path) precedes |
| Paths.Dirname | app.py:205 | `dirname` is empty without a `/`; otherwise the prefix up to the last `/`, with its trailing slashes dropped unless it is all slashes |
| Paths.SplitExt | desktop_utils.py:37 | `splitext` parts concatenate to the name; the extension is non-empty iff the last component has a dot after a non-dot character, and then starts at the last dot and holds no other dot |
| Paths.SplitExtOfParts | desktop_utils.py:37 | a stem with a non-dot character in its last component and a dot-led extension split back into exactly those parts |
| Paths.NoDotNoExtension | desktop_utils.py:37 | a dot-less name has no extension |
| Paths.BasenameOfJoin | desktop_utils.py:42 | the displayed name is the name joined onto the folder |
| Paths.JoinInjective | desktop_utils.py:39 | joining two different relative names onto one folder gives two different paths |
| Paths.DirnameOfJoin | app.py:205 | `dirname` undoes `join` of a plain name |
| Events.CountTerminalAppend | app.py:607 | terminal events of a concatenation add up |
| Events.NoTerminal | app.py:607 | a sequence without `done`/`error`/`complete` counts none |
| Events.CountedNone | app.py:607 | a sequence that counts no terminal event has none |
| Events.FirstTerminalAt | app.py:607 | a sequence with a terminal event has a first one |
| Events.StatusesThenError | workflow_scripts/pdf_splitter.py:31 | generic over every script (line 31 is one of the shared error paths: a status, then one `error`, then `return`): status events followed by one `error` hold exactly one terminal event |
| Events.FailedStepReports | workflow_scripts/pdf_splitter.py:31 | generic over every script, line 31 being one instance: a failing script run that put statuses and then its `error` reports its failure exactly once |
| Events.QuietStepReports | workflow_scripts/pdf_splitter.py:31 | generic over every script, line 31 being one instance: a successful script run that put only statuses puts no terminal event |
| Desktop.CandidateWithoutDot | desktop_utils.py:37-39 | a dot-less desired name gets `_k` at its very end |
| Desktop.TargetFolderPlacement | desktop_utils.py:11-31 | the category folder is named by the category and sits in the base output folder, which sits in `~/Desktop` or, without one, in the home folder |
| Desktop.CandidateSplits | desktop_utils.py:37-39 | `splitext` of the k-th candidate gives back the desired name's stem followed by `_k`, and its extension |
| Desktop.ProbeInjective | desktop_utils.py:36-40 | the probe never tries the same name twice |
| Desktop.ProbePathInjective | desktop_utils.py:38-40 | the probe never tries the same path twice |
| Desktop.FreshName | desktop_utils.py:35-42 | the loop ends with the first probed name whose path is not taken; the desired name itself when it is free |
| Desktop.CopyToDesktopFolder | desktop_utils.py:19-48 | `(None, None)` exactly when the source is missing or a directory, or the folders or the copy fail; the base and category folders are made whenever `makedirs` runs and succeeds, and no other folder; a copy lands at the first free probed path in the category folder, the only new file |
| Desktop.CopyInto | desktop_utils.py:34-45 | no folder is made; the copy fails, with nothing written, iff the source is a folder or `copy2` raises; otherwise exactly one new file, at the first free probe path in the target folder, and its base name is returned |
| Desktop.SecondCopyIsNumbered | desktop_utils.py:36-40 | in any folder, an existing copy of the desired name makes the copy `<stem>_1<ext>` |
| Desktop.ThirdCopyIsNumberedTwo | desktop_utils.py:36-40 | with the desired name and `<stem>_1<ext>` taken, the copy is `<stem>_2<ext>` |
| Desktop.FirstFreeOfTried | desktop_utils.py:36-40 | the first probed path that is not taken, after taken ones, is where the probe stops |
| Desktop.NotYetTried | desktop_utils.py:36-40 | each probe index tries a path never tried before, so the probe ends |
| Desktop.TriedStep | desktop_utils.py:36-40 | each probe adds exactly one path to the set tried |
| Desktop.FirstFreeAfterTried | desktop_utils.py:36-40 | when exactly the first k probed paths exist, the probe settles on index k |
| TextSummarizer.FirstBreak | workflow_scripts/text_summarizer.py:100 | the next line break at or after a position, with none before it |
| TextSummarizer.SplitLines | workflow_scripts/text_summarizer.py:100 | `splitlines` gives lines without break characters, none exactly for the empty text, and together they hold every non-break character of the text in order |
| TextSummarizer.SplitJoinRoundTrip | workflow_scripts/text_summarizer.py:100 | `splitlines` undoes joining break-free lines with `\n` when the last line is not empty |
| TextSummarizer.PrefixesExclusive | workflow_scripts/text_summarizer.py:106-121 | at most one of the tested Markdown prefixes matches a stripped line |
| TextSummarizer.ClassifyKeepsContent | workflow_scripts/text_summarizer.py:102-123 | classification only removes a marker from the front of the stripped line: the text is a suffix of it, the whole of it exactly for `Normal` |
| TextSummarizer.ClassifyMarked | workflow_scripts/text_summarizer.py:106-121 | a line written as a style's marker (`#`, `##`, `###`, `*` or `-`), whitespace starting with a space, then text not starting with whitespace, reads back as exactly that text in that style: Heading 1, 2, 3 or List Bullet |
| TextSummarizer.ClassifyHeading1 | workflow_scripts/text_summarizer.py:106-109 | `# ` then whitespace and text gives that text as Heading 1 |
| TextSummarizer.ClassifyHeading2 | workflow_scripts/text_summarizer.py:110-113 | `## ` then whitespace and text gives that text as Heading 2, not Heading 1 |
| TextSummarizer.ClassifyHeading3 | workflow_scripts/text_summarizer.py:114-117 | `### ` then whitespace and text gives that text as Heading 3, not Heading 1 or 2 |
| TextSummarizer.ClassifyBullet | workflow_scripts/text_summarizer.py:118-121 | `* ` or `- ` then whitespace and text gives that text as List Bullet, no heading branch taken |
| TextSummarizer.UnmarkedIsNormal | workflow_scripts/text_summarizer.py:106-123 | a stripped line is kept whole in the default style exactly when it starts with none of the five markers |
| TextSummarizer.LStripKeepsLast | workflow_scripts/text_summarizer.py:107 | removing a marker from a stripped line leaves its last character |
| TextSummarizer.ClassifiedTextNonEmpty | workflow_scripts/text_summarizer.py:103-123 | every written paragraph has non-empty text that starts with a non-space |
| TextSummarizer.ParagraphsAppend | workflow_scripts/text_summarizer.py:101-123 | the paragraph loop is compositional and keeps line order |
| TextSummarizer.ParagraphsCount | workflow_scripts/text_summarizer.py:101-103 | exactly the non-blank lines produce a paragraph |
| TextSummarizer.FormatLines | workflow_scripts/text_summarizer.py:101-123 | the loop over the lines builds exactly the specified paragraphs: blank lines skipped, the rest classified in order |
| TextSummarizer.ParagraphsPrefixStep | workflow_scripts/text_summarizer.py:101-123 | one more line adds nothing when blank and its classified paragraph otherwise |
| TextSummarizer.MarkerRemoved | workflow_scripts/text_summarizer.py:106-121 | removing a marker and the whitespace after it from a stripped line leaves non-empty text starting with a non-space |
| TextSummarizer.StrippedTextNonEmpty | workflow_scripts/text_summarizer.py:103-123 | a stripped non-empty line always yields a paragraph with non-empty text |
| TextSummarizer.FormatSummary | workflow_scripts/text_summarizer.py:99-123 | the loop builds one paragraph per non-blank line of the stripped reply, in order |
| TextSummarizer.RunSummarization | workflow_scripts/text_summarizer.py:44-149 | `run_summarization` puts exactly the events and returns the value of the summary specification |
| TextSummarizer.BlankInputSkipsModel | workflow_scripts/text_summarizer.py:74-78 | blank input fails with one error before the model call; the reply and the save play no part |
| TextSummarizer.SummarizationOutcome | workflow_scripts/text_summarizer.py:44-149 | success iff model, reply text and save all succeed on non-blank input; success puts only statuses 10/30/80, failure ends with its only `error` |
| SummaryToPpt.RoundHalfEven | workflow_scripts/summary_to_ppt.py:31 | Python's `round`: nearest integer, ties to even |
| SummaryToPpt.IndentLevel | workflow_scripts/summary_to_ppt.py:17-32 | the level is between 0 and 8 |
| SummaryToPpt.RoundMonotone | workflow_scripts/summary_to_ppt.py:31 | rounding a quotient is monotone |
| SummaryToPpt.IndentLevelMonotone | workflow_scripts/summary_to_ppt.py:17-32 | a deeper indent never gives a shallower level |
| SummaryToPpt.IndentLevelExact | workflow_scripts/summary_to_ppt.py:19-32 | an indent of 0.1 + 0.4·k inches gives level k |
| SummaryToPpt.ConvertToPpt | workflow_scripts/summary_to_ppt.py:34-198 | the slides are those of the paragraph-loop specification; `True` iff some slide exists and the save succeeds; an unreadable document gives no slides and `False` |
| SummaryToPpt.StepWithinLimit | workflow_scripts/summary_to_ppt.py:138-179 | one paragraph keeps every content slide at seven items or fewer |
| SummaryToPpt.RunWithinLimit | workflow_scripts/summary_to_ppt.py:44-185 | no content slide holds more than seven items |
| SummaryToPpt.EighthItemOpensContinuation | workflow_scripts/summary_to_ppt.py:139-160 | the eighth item opens a slide titled `<heading> (續)` holding just that item |
| SummaryToPpt.FlattenAppend | workflow_scripts/summary_to_ppt.py:172-179 | items of concatenated slides concatenate |
| SummaryToPpt.OpenIffUnderHeading2 | workflow_scripts/summary_to_ppt.py:85-138 | a content slide is open exactly while the latest heading is a Heading 2 |
| SummaryToPpt.ItemsAreAttachedParagraphs | workflow_scripts/summary_to_ppt.py:46-185 | the bullets, in order, are exactly the body paragraphs under a Heading 2 with no Heading 1 in between |
| SummaryToPpt.PlaceParagraph | workflow_scripts/summary_to_ppt.py:46-185 | one iteration of the paragraph loop on the loop variables keeps them equal to the specified pager state |
| SummaryToPpt.AttachedStep | workflow_scripts/summary_to_ppt.py:46-185 | one more paragraph keeps the slides' items equal to the attached paragraphs |
| SummaryToPpt.BodyItemStep | workflow_scripts/summary_to_ppt.py:138-179 | a body paragraph under an open slide adds exactly its item, with its indent level |
| SummaryToPpt.FlattenSnoc | workflow_scripts/summary_to_ppt.py:172-179 | a new slide adds its items to the flattened deck, and a title slide adds none |
| SummaryToPpt.StepKeepsSlides | workflow_scripts/summary_to_ppt.py:57-98 | a heading always leaves a slide; other paragraphs never create the first one |
| SummaryToPpt.HasHeadingSnoc | workflow_scripts/summary_to_ppt.py:54-55 | a document has a heading iff its prefix or its last paragraph does |
| SummaryToPpt.SlidesIffHeadingStep | workflow_scripts/summary_to_ppt.py:46-98 | one step keeps "has slides iff has a heading" |
| SummaryToPpt.SlidesIffHeading | workflow_scripts/summary_to_ppt.py:188-190 | some slide is produced exactly when a non-blank Heading 1 or Heading 2 exists |
| PdfOcr.PageEvents | workflow_scripts/pdf_ocr_translator.py:24-28 | one progress event per page, numbered 1..n of n |
| PdfOcr.ProcessPage | workflow_scripts/pdf_ocr_translator.py:30-52 | a page contributes its stripped reply or a failure marker, and counts as an error iff the reply is empty or the call raised |
| PdfOcr.ProcessPdfPages | workflow_scripts/pdf_ocr_translator.py:14-58 | the loop reports the start and each page it reaches, in order; a page whose `load_page` raises is announced and ends the loop with that exception; the text is the replied pages' chunks in page order and the failed pages are counted |
| PdfOcr.VisitPage | workflow_scripts/pdf_ocr_translator.py:24-51 | one pass of the page loop for a page that loads adds its progress event, its chunk and its failure, keeping events, text and counter equal to the specification for one more page |
| PdfOcr.BlankAppend | workflow_scripts/pdf_ocr_translator.py:40 | concatenated text is blank iff both parts are |
| PdfOcr.ChunkBlank | workflow_scripts/pdf_ocr_translator.py:38-51 | a page's chunk is blank iff the page succeeded with whitespace only |
| PdfOcr.AccumulatedBlank | workflow_scripts/pdf_ocr_translator.py:24-58 | the text is blank iff every page succeeded with whitespace only (`AllBlankPages`) |
| PdfOcr.PagePrefixStep | workflow_scripts/pdf_ocr_translator.py:24-52 | one more page appends exactly its chunk to the text and its failure to `page_errors` |
| PdfOcr.AllBlankSnoc | workflow_scripts/pdf_ocr_translator.py:36-52 | the pages are all blank iff the earlier ones are and the last succeeded with whitespace only |
| PdfOcr.FailedPageMakesTextNonBlank | workflow_scripts/pdf_ocr_translator.py:41-51 | one failed page already makes the result non-blank |
| PdfOcr.RunPdfOcr | workflow_scripts/pdf_ocr_translator.py:60-102 | the OCR entry points put the events of their specification; the one saved paragraph is the accumulated text, and it is saved iff the run succeeds |
| PdfOcr.PdfOcrOutcome | workflow_scripts/pdf_ocr_translator.py:60-102 | `True` iff nothing raised, no page load included, and the text is non-blank; success puts the start and every page's progress and no terminal event; failure ends with its only `error` |
| PdfOcr.ImageOcrOutcome | workflow_scripts/pdf_ocr_translator.py:104-127 | `True` iff nothing raised and the reply text is non-empty; the call status comes first; failure ends with its only `error` |
| PdfSplitter.RemoveForbidden | workflow_scripts/pdf_splitter.py:14 | the result holds none of `\ / * ? : " < > \|` |
| PdfSplitter.SanitizedIsClean | workflow_scripts/pdf_splitter.py:12-14 | a cleaned title has no forbidden character and no surrounding whitespace |
| PdfSplitter.RemoveForbiddenAppend | workflow_scripts/pdf_splitter.py:14 | removal works character by character, keeping order |
| PdfSplitter.RemoveForbiddenChar | workflow_scripts/pdf_splitter.py:14 | one character survives iff it is not forbidden |
| PdfSplitter.RemoveForbiddenClean | workflow_scripts/pdf_splitter.py:14 | clean text is left alone |
| PdfSplitter.SanitizeIdempotent | workflow_scripts/pdf_splitter.py:12-14 | cleaning twice equals cleaning once |
| PdfSplitter.Range | workflow_scripts/pdf_splitter.py:39 | `list(range(lo, hi))` |
| PdfSplitter.ElementsEmpty | workflow_scripts/pdf_splitter.py:40 | a list's set is empty iff the list is |
| PdfSplitter.SortedListUnique | workflow_scripts/pdf_splitter.py:40 | `sorted(set(...))` is determined by the set |
| PdfSplitter.CandidatesShape | workflow_scripts/pdf_splitter.py:39 | the candidates are the first block from 0, then the block from `max(15, n-5)` |
| PdfSplitter.CandidatesIncreasing | workflow_scripts/pdf_splitter.py:39-40 | the candidate list is already strictly increasing |
| PdfSplitter.CandidatesBounds | workflow_scripts/pdf_splitter.py:39 | `min(20, n)` candidates, all valid page indices |
| PdfSplitter.ShortDocumentSampledWhole | workflow_scripts/pdf_splitter.py:39-40 | a document of at most 20 pages is sampled whole |
| PdfSplitter.CandidatesCover | workflow_scripts/pdf_splitter.py:39 | the first 15 and the last 5 pages are sampled |
| PdfSplitter.SampledPages | workflow_scripts/pdf_splitter.py:39-40 | the sampled pages are the candidates, in order, at most 20, within the document, covering the first 15 and last 5 |
| PdfSplitter.Insert | workflow_scripts/pdf_splitter.py:77 | inserting adds exactly the entry |
| PdfSplitter.InsertSorted | workflow_scripts/pdf_splitter.py:77 | insertion keeps the table sorted by page |
| PdfSplitter.ConsSorted | workflow_scripts/pdf_splitter.py:77 | an entry whose key is no later than every key of a sorted table may be put in front of it |
| PdfSplitter.SortTocCorrect | workflow_scripts/pdf_splitter.py:77 | the sorted table is ordered by page (missing page last) and is a permutation of the parsed one |
| PdfSplitter.PagelessLast | workflow_scripts/pdf_splitter.py:77 | entries without `page` come after every entry with one |
| PdfSplitter.ChapterAt | workflow_scripts/pdf_splitter.py:91-109 | the intended chapter of an entry exists iff it has a title and a page inside the document; it starts at page-1 and never ends before it starts |
| PdfSplitter.ChaptersBounded | workflow_scripts/pdf_splitter.py:90-118 | `split_count <= len(toc)` for the intended loop, and so for the loop as written |
| PdfSplitter.ChaptersInOrder | workflow_scripts/pdf_splitter.py:91-118 | the intended chapters come in table order, each the intended chapter of its entry |
| PdfSplitter.ChaptersAreReadableEntries | workflow_scripts/pdf_splitter.py:91-134 | the intended loop writes exactly the readable entries whose copy succeeded |
| PdfSplitter.ChaptersContiguous | workflow_scripts/pdf_splitter.py:102-109 | for increasing pages the intended chapters tile the document from the first entry to the last page |
| PdfSplitter.LastChapterLostAsWritten | workflow_scripts/pdf_splitter.py:102-104 | as written, a readable chapter followed by a page-less entry is lost |
| PdfSplitter.AsWrittenSkipsLost | workflow_scripts/pdf_splitter.py:90-131 | the loop as written writes the intended chapters minus those of entries followed by an entry without `page` |
| PdfSplitter.AsWrittenEntries | workflow_scripts/pdf_splitter.py:90-131 | as written, the chapters are exactly the readable entries whose copy succeeded and whose next entry, if any, has a `page` |
| PdfSplitter.ChapterEvents | workflow_scripts/pdf_splitter.py:121-127 | event m reports chapter m: its 1-based position, `len(toc)` and its cleaned title |
| PdfSplitter.ChapterEventsQuiet | workflow_scripts/pdf_splitter.py:121-127 | the per-chapter `progress` events are never terminal |
| PdfSplitter.ReadChapter | workflow_scripts/pdf_splitter.py:92-109 | one pass of the loop body as written: the entry's page range or a skip; a range it returns is the intended one, and it skips a readable entry only when the next entry has no `page` |
| PdfSplitter.SplitOne | workflow_scripts/pdf_splitter.py:91-134 | one pass of the loop as written extends the chapters written and their events exactly as the first `i+1` entries give |
| PdfSplitter.SplitChapters | workflow_scripts/pdf_splitter.py:90-134 | the loop writes exactly the chapters of the loop as written, and event m reports chapter m |
| PdfSplitter.RunPdfSplit | workflow_scripts/pdf_splitter.py:16-137 | `run_pdf_split` returns and reports what its specification says |
| PdfSplitter.PdfSplitOutcome | workflow_scripts/pdf_splitter.py:16-137 | -1 iff a start, reply or folder failure; `(0, None)` iff an empty table; with a folder, the count is the chapters written as written (at most the entries), under `<desktop>/AI 工具輸出/<folder>/<pdf name>`; every run starts with the init status |
| PdfSplitter.SplitFilesDistinct | workflow_scripts/pdf_splitter.py:114-116 | two chapters of one run are saved under two different paths in the output folder |
| PdfSplitter.FileNameNumber | workflow_scripts/pdf_splitter.py:114 | the number a chapter's file name starts with is its 1-based position in the table |
| PdfSplitter.FileNamesDiffer | workflow_scripts/pdf_splitter.py:114 | chapters at different positions are saved under different file names |
| PdfSplitter.PdfSplitReports | workflow_scripts/pdf_splitter.py:16-137 | a run with a folder puts no terminal event; one without ends with its only `error` |
| PdfSplitter.SplitFailureReports | workflow_scripts/pdf_splitter.py:16-89 | an init failure, an unreadable or empty table of contents or a folder failure returns no folder and ends with exactly one `error` |
| PdfSplitter.SplitSuccessQuiet | workflow_scripts/pdf_splitter.py:16-137 | a non-empty table returns the output folder and puts no terminal event, leaving the ending to the caller |
| Workflows.Put | app.py:185 | a put is skipped once a step raised, and a non-terminal put keeps the flow clean |
| Workflows.Call | app.py:192-193 | a transform's events, then a raise iff it returned `False` |
| Workflows.ReadText | app.py:186-188 | the read raises its own message, or the blank message for blank text |
| Workflows.Check | app.py:201-203 | a failed check raises its message |
| Workflows.Translate | app.py:256-264 | translation passes iff the reply has text and the save succeeds |
| Workflows.Failed | app.py:213-220 | a failed workflow ends with `error("處理失敗: …")` then `done` |
| Workflows.FailedProtocol | app.py:213-220 | a failure ending keeps the terminal-event protocol |
| Workflows.FinishProtocol | app.py:201-220 | the final copy and the ending keep the protocol |
| Workflows.WorkflowProtocol | app.py:99-111 | every workflow keeps the protocol: success ends with its only terminal event, a `complete` with a folder; failure ends with `error`, `done` |
| Workflows.TextToPptProtocol | app.py:167-220 | the text-to-slides workflow keeps the protocol |
| Workflows.FullReportProtocol | app.py:223-295 | the full report keeps the protocol |
| Workflows.PdfToPptProtocol | app.py:298-346 | the PDF-to-slides workflow keeps the protocol |
| Workflows.OcrProtocol | app.py:349-382 | the OCR workflow keeps the protocol |
| Workflows.SummarizeProtocol | app.py:385-419 | the summary workflow keeps the protocol |
| Workflows.SplitProtocol | app.py:422-452 | the split workflow keeps the protocol |
| Workflows.TextToPptSucceeds | app.py:167-220 | success iff the text reads non-blank, the summary and conversion succeed and the final copy returns a path |
| Workflows.FullReportSucceeds | app.py:223-295 | success iff OCR, non-blank text, translation, its save, summary, conversion and final copy all succeed |
| Workflows.PdfToPptSucceeds | app.py:298-346 | success iff OCR, non-blank text, summary, conversion and final copy succeed |
| Workflows.OcrSucceeds | app.py:349-382 | success iff the transform chosen by the `.pdf` extension and the copy succeed |
| Workflows.SummarizeSucceeds | app.py:385-419 | success iff OCR, non-blank text, summary and copy succeed |
| Workflows.CompleteCarriesFolder | app.py:205-210 | `complete` names the copied file and carries the folder two levels above it |
| Workflows.ReportedFolderIsOutputRoot | app.py:205 | that folder is `<desktop>/AI 工具輸出` |
| Workflows.BlankTextSkipsSummary | app.py:186-188 | blank text stops four workflows before the summarizer, whatever it would do |
| Workflows.BlankOcrSkipsTranslation | app.py:250-258 | blank OCR text stops the full report before the translation call |
| Workflows.TextToPptSummaryFailure | app.py:191-193 | a failed summary gives statuses 1 and 2, the summarizer's events, then the failure ending |
| Workflows.TwiceReported | app.py:213-220 | a failed step's own `error` is the first of three terminal events |
| Workflows.SummaryFailureReportedTwice | app.py:192-193 | a failed summary is reported by two `error` events, and a stream stops at the summarizer's |
| Workflows.FirstTerminal | app.py:607 | the first terminal event is terminal |
| Workflows.FirstTerminalAppend | app.py:607 | a prefix without terminal events does not change the first one |
| Workflows.FirstTerminalLast | app.py:607 | the last event, if it is the only terminal one, comes first in any extension |
| Workflows.SplitWorkflowReport | app.py:429-446 | the split workflow succeeds iff the count is positive, reporting the count and the output folder; 0 and -1 give their two messages |
| Workflows.EmptyTocReportedTwice | app.py:443-444 | an empty table ends with the splitter's `error`, the workflow's `error`, then `done` |
| Workflows.SummarizerReports | workflow_scripts/text_summarizer.py:44-149 | a successful summary puts no terminal event; a failed one ends with an `error`, its only terminal event |
| Workflows.ShapedSummaryReports | workflow_scripts/text_summarizer.py:44-149 | any summarizer run of the shape the outcome lemma gives keeps the reporting promise |
| Workflows.PdfOcrReports | workflow_scripts/pdf_ocr_translator.py:60-102 | the same for the PDF OCR entry points |
| Workflows.ImageOcrReports | workflow_scripts/pdf_ocr_translator.py:104-127 | the same for the image OCR |
| App.AllowedFileIff | app.py:134-135 | `allowed_file` holds iff the lower-cased text after the last dot is an allowed extension |
| App.AllowedFileOfParts | app.py:134-135 | a name `stem.ext` with a dot-free `ext` passes iff the lower-cased `ext` is allowed, whatever dots the stem holds |
| App.DotlessNeverAllowed | app.py:134-135 | a name without a dot never passes |
| App.ValidateIff | app.py:555-573 | an upload passes iff the type is known, a file is named and its extension is allowed; every refusal is a 400 |
| App.KnownTypes | app.py:562-572 | exactly the six types have extensions, each set non-empty, and exactly they have a workflow |
| App.TaskDone | app.py:123 | `task_done` lowers the counter by one, or raises `ValueError` below zero |
| App.InvalidRecordAsWrittenMiscounts | app.py:87-90 | as written, an invalid record kills the worker (only record) or leaves the counter one short |
| App.InvalidRecordKeepsCount | app.py:122-123 | with one `task_done`, the counter again equals the records queued |
| App.LaggingCounterStops | app.py:87-123 | as written, a counter below the number of queued records ends the worker thread before it has taken them all |
| App.InvalidRecordStopsWorker | app.py:87-123 | as written, one unrunnable record among the queued ones ends the worker thread, even from an exact counter |
| App.RunnableRecordsDrain | app.py:122-123 | runnable records alone bring an exact counter to zero |
| App.CorrectedDrains | app.py:122-123 | with one `task_done` per record, any mix of records brings an exact counter to zero without a raise |
| App.DispatchEndsTerminal | app.py:93-121 | for any run keeping the terminal-event protocol, the events put end with a terminal event; a missing key or an unknown type puts one `error`; a known type puts its workflow's events, with exactly one terminal on success |
| App.Channel.Put | app.py:185 | an event is appended to the task's queue |
| App.Channel.Take | app.py:604 | `get` returns and removes the oldest event |
| App.ScratchArea.Make | app.py:581 | the task folder is created |
| App.ScratchArea.Remove | app.py:218 | the task folder is removed |
| App.Server.constructor | app.py:72-73 | an empty queue, counter and registry, and a running worker |
| App.Server.ProcessTask | app.py:553-592 | refusals change nothing; a failing `makedirs` is an unhandled 500 that changes nothing; a failed save removes the folder; an accepted task has its folder, a fresh empty queue under its id and its record at the end of the queue; the unfinished-task counter rises by one exactly when the task is accepted and is otherwise unchanged, so an exact counter stays exact and queued records stay runnable |
| App.Server.WorkerStep | app.py:75-126 | the oldest record leaves the queue; a runnable one's channel receives exactly the dispatched events and its folder goes iff a workflow ran; an unrunnable one gets two `task_done` calls, and a `ValueError` from the first is reported on its channel; a raise from the `finally` stops the worker with its id still registered, otherwise the id is forgotten; no other channel changes; an exact counter over runnable records stays exact |
| App.Server.HandleRecord | app.py:81-121 | a runnable record's channel receives exactly the dispatched events and its folder goes iff a workflow ran; an invalid record leaves every folder alone, lowers the counter once unless that `task_done` raises, and then its channel, if registered, receives the internal-error event with the `ValueError` message; no other channel changes |
| App.Server.RunRecord | app.py:93-121 | the channel receives exactly the dispatched events, and the scratch folder is removed iff a workflow ran |
| App.Server.Enqueue | app.py:589-591 | a fresh empty channel is registered under the id, the record is queued last and the counter rises by one; with an unused id the queued records stay runnable |
| App.Server.RunTextToPptWorkflow | app.py:167-220 | puts exactly the specified events and removes the task folder |
| App.Server.RunFullReportWorkflow | app.py:223-295 | puts exactly the specified events and removes the task folder |
| App.Server.RunPdfToPptWorkflow | app.py:298-346 | puts exactly the specified events and removes the task folder |
| App.Server.RunOcrWorkflow | app.py:349-382 | puts exactly the specified events and removes the task folder |
| App.Server.RunSummarizeWorkflow | app.py:385-419 | puts exactly the specified events and removes the task folder |
| App.Server.RunSplitWorkflow | app.py:422-452 | puts exactly the specified events and removes the task folder |
| App.Server.EndWorkflow | app.py:213-220 | on failure `error`, then the folder's removal, then `done` |
| App.Server.Conclude | app.py:201-220 | the channel receives exactly the events of `Finish` after the workflow's own, and the task folder is removed |
| App.Server.Stream | app.py:594-614 | a malformed id is a 400; an unknown id gets one `error` frame; otherwise the frames are those of the forwarding specification and exactly the forwarded events leave the queue |
| App.ForwardIsPrefix | app.py:602-608 | a stream forwards a prefix of the channel's events, in order and without gaps |
| App.ForwardStopsAtTerminal | app.py:602-608 | only the last forwarded event can be terminal: nothing is forwarded after `done`, `error` or `complete` |
| App.ForwardUntilTerminal | app.py:602-608 | a client that keeps receiving gets exactly the events up to the first terminal one, which ends the stream |
| App.TimeoutForwardsNothing | app.py:608 | a timeout sends a keep-alive and forwards nothing |
| App.StreamReachesTerminal | app.py:602-608 | a queue ending with a terminal event is streamed to a terminal frame; with one terminal event, in full |
| App.StreamEndsTask | app.py:99-121 | a client of a runnable task always sees a terminal event, and after a successful workflow every event |
| App.StreamEndsRun | app.py:99-121 | for any run keeping the protocol, a client that keeps receiving sees the terminal event last, and after a successful run every event |

## Left out

- The model's replies, PDF rendering, image loading, and reading and writing
  Word, PowerPoint and text files are inputs. This covers the `genai` calls,
  PyMuPDF, Pillow, python-docx and python-pptx. The model computes only what
  the code does with their results.
- `time.sleep`, logging, threads and blocking are not modelled.
  - One `WorkerStep` call is one iteration of the worker's loop.
  - The stream's 60-second waits are an input sequence of polls.
  - The worker and a stream running at the same time are not modelled: a
    stream sees the events pending when it runs.
- `uuid4`, `secure_filename` and `uuid.UUID` validation are parameters. These
  are `newId`, `safeName` and `wellFormed`.
- `shutil.rmtree(..., ignore_errors=True)` is assumed to remove the folder.
- `genai.configure` is assumed not to raise.
- Paths are POSIX. Windows drive letters and backslashes are not modelled.
- `str.lower` is modelled on ASCII letters only.
- The 400 message for a wrong extension joins a Python set. The set's order
  is hash-dependent, so the model returns the set itself (`NotAllowed`).
- `read_text_from_file` is an input `Result<string>`, including its
  `.docx`/`.txt` dispatch and encoding fallback.
- The intermediate desktop copies of each workflow (`sum_`, `ocr_`, `trans_`)
  are not tracked. Their failures return `(None, None)` without raising, so
  they do not affect the events.
- Table-of-contents entries:
  - non-dict entries and non-integer pages are not modelled;
  - a JSON `null` page, whose `None` key makes `toc.sort` raise `TypeError`,
    is not modelled;
  - an exception escaping `run_pdf_split` (during sampling or the sort) is
    the workflow input `Escaped`.
- The split run, the worker and the rest of the model follow the code as
  written in both Findings. The intended chapter loop (`PdfSplitter.Chapters`)
  and the one-`task_done` counter (`App.Drain`) are kept beside them for the
  comparison only.
- After the worker thread has ended (`App.Server.stopped`), nothing takes
  records any more; the model has no step for a stopped worker.
- `ScratchArea.Make` cannot fail. A failing `os.makedirs` in `process_task`
  is the parameter `mkdirError`, which makes the answer `Unhandled` before
  any folder exists.
- The contents of Flask's 500 page for an unhandled exception are not
  modelled (`Answer.Unhandled`).
- PyMuPDF's handling of `to_page` beyond the document is not modelled. The
  model records the page range the code computes.
- PdfSplitter.SortTocCorrect: states that the result is ordered and a
  permutation of the input, but not that the sort is stable. The
  insertion-sort definition is stable, but no lemma states it.
- SummaryToPpt.ConvertToPpt: failures to find a layout or placeholder in the
  default template, fonts and sizes are not modelled. The default template
  always has the layouts the code asks for.
- SummaryToPpt.IndentLevel: computes on integer EMU with exact ties to even.
  The source computes in floating-point inches.
- The routes that only render templates or talk to the chat model are not
  modelled: `/`, the tool pages, chat, `open_folder` and configuration
  loading.
- `desktop_utils.open_folder_in_explorer` is not modelled, because it only
  starts an operating-system process.

## Findings

| source | as written | input that shows it | evidently intended | confidence | as-written member | corrected member |
|---|---|---|---|---|---|---|
| app.py:87-90 | an unrunnable record calls `task_done()` before `continue`, and `finally` calls it again | one record without a registered queue and nothing else queued: the second call raises `ValueError`, which leaves `while True` and ends the worker thread; behind other records, the counter falls below the queue and a later `task_done` ends the thread | one `task_done()` per record, in `finally` | not executed; `process_task` enqueues such a record only when a task id repeats | App.InvalidRecordStopsWorker | App.CorrectedDrains |
| workflow_scripts/pdf_splitter.py:102-104 | the end page reads `toc[i+1]['page']`, and a `KeyError` skips the current chapter | `[{"title": "A", "page": 1}, {"title": "B"}]` on a ten-page PDF writes nothing, so the split workflow fails | a following entry without `page` (sorted last) ends the table, so chapter A covers pages 1-10 | not executed | PdfSplitter.AsWrittenEntries | PdfSplitter.ChaptersAreReadableEntries |
