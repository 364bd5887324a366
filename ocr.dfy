/**
  workflow_scripts/pdf_ocr_translator.py: the page loop `_process_pdf_pages`
  sends every page image to the model and accumulates the replies (or a failure
  marker per failed page), and the three entry points decide success from what
  came back. The model's reply for page k is the k-th element of `replies`;
  `load_page`, which sits outside the per-page `try`, either loads every page
  or raises `loadError` on the page after the replied ones. The rendering of
  pages, the model's construction and the Word save are inputs.
*/
module PdfOcr {
  import opened Common
  import opened Text
  import opened Events

  /**
    What the page loop returns and reports: its events, the accumulated text,
    its page-error counter, and the exception that ended it early, if any.
  */
  datatype PageRun = PageRun(events: seq<Event>, text: string, pageErrors: nat, raised: Option<string>)

  /**
    The pages a document of `n` pages offers the loop: one reply for each page
    that loaded, and `loadError` on the next page when loading it raises.
  */
  predicate PagesFit(n: nat, replies: seq<ModelReply>, loadError: Option<string>) {
    if loadError.Some? then |replies| < n else |replies| == n
  }

  /** How many pages the loop announces: the replied ones, and the one whose loading raised. */
  function Visited(replies: seq<ModelReply>, loadError: Option<string>): nat {
    |replies| + (if loadError.Some? then 1 else 0)
  }

  /** A page counts as failed when the reply text is empty or the call raised. */
  predicate PageFailed(r: ModelReply) {
    r.Fails? || r.text == []
  }

  /** The text contributed by page `k` (1-based): the stripped reply, or a failure marker naming the page. */
  function PageChunk(k: nat, r: ModelReply): string {
    match r
    case Reply(t, feedback) =>
      if t != [] then Strip(t) + "\n\n"
      else "[--- 第 " + NatToString(k) + " 頁處理失敗" + BlockReason(feedback) + " ---]\n\n"
    case Fails(e) => "[--- 第 " + NatToString(k) + " 頁處理錯誤: " + e + " ---]\n\n"
  }

  /** `full_text` after the pages `replies`: the chunks of pages 1, 2, … concatenated in order. */
  function Accumulated(replies: seq<ModelReply>): string {
    if replies == [] then ""
    else Accumulated(replies[..|replies| - 1]) + PageChunk(|replies|, replies[|replies| - 1])
  }

  const StartStatus: string := "開始處理頁面..."

  /** The progress event announcing page `k` of `n`. */
  function PageEvent(k: nat, n: nat): Event {
    Progress(k, n, "處理中... (" + NatToString(k) + "/" + NatToString(n) + ")")
  }

  /** The events for pages 1..i of n, in order. */
  function PageEvents(i: nat, n: nat): (r: seq<Event>)
    ensures |r| == i
    ensures forall k :: 0 <= k < i ==> r[k] == PageEvent(k + 1, n)
  {
    if i == 0 then [] else PageEvents(i - 1, n) + [PageEvent(i, n)]
  }

  /** Everything the page loop reports for `n` pages when it reaches page `visited`: the start event, then pages 1..visited. */
  function LoopEvents(n: nat, visited: nat): seq<Event> {
    [Progress(0, n, StartStatus)] + PageEvents(visited, n)
  }

  /** The body of the page loop for page `page`: the text it appends and whether it counts as a page error. */
  method ProcessPage(page: nat, reply: ModelReply) returns (chunk: string, failed: bool)
    ensures chunk == PageChunk(page, reply)
    ensures failed == PageFailed(reply)
    ensures !IsBlank(chunk) || !failed
  {
    match reply {
      case Reply(t, feedback) =>
        if t != [] {
          chunk, failed := Strip(t) + "\n\n", false;
        } else {
          chunk, failed := "[--- 第 " + NatToString(page) + " 頁處理失敗" + BlockReason(feedback) + " ---]\n\n", true;
          assert chunk[0] == '[';
        }
      case Fails(e) =>
        chunk, failed := "[--- 第 " + NatToString(page) + " 頁處理錯誤: " + e + " ---]\n\n", true;
        assert chunk[0] == '[';
    }
  }

  /**
    `_process_pdf_pages` on a document of `n` pages. Every page that loads is
    processed, whatever its reply; a `load_page` exception ends the loop right
    after that page's progress event and propagates.
  */
  method ProcessPdfPages(n: nat, replies: seq<ModelReply>, loadError: Option<string>) returns (run: PageRun)
    requires PagesFit(n, replies, loadError)
    ensures run.events == LoopEvents(n, Visited(replies, loadError))
    ensures run.raised == loadError
    ensures run.text == Accumulated(replies)
    ensures run.pageErrors == Count(replies, PageFailed)
  {
    var events := [Progress(0, n, StartStatus)];
    var text := "";
    var errors := 0;
    var i := 0;
    while i < |replies|
      invariant 0 <= i <= |replies|
      invariant events == LoopEvents(n, i)
      invariant text == Accumulated(replies[..i])
      invariant errors == Count(replies[..i], PageFailed)
    {
      events, text, errors := VisitPage(n, replies, i, events, text, errors);
      i := i + 1;
    }
    assert replies[..i] == replies;
    if loadError.Some? {
      LoopEventsStep(n, i);
      events := events + [PageEvent(i + 1, n)];
    }
    run := PageRun(events, text, errors, loadError);
  }

  /** One iteration of the page loop for a page that loads: its progress event, its chunk and its failure. */
  method VisitPage(n: nat, replies: seq<ModelReply>, i: nat, events: seq<Event>, text: string, errors: nat)
    returns (events': seq<Event>, text': string, errors': nat)
    requires i < |replies|
    requires events == LoopEvents(n, i) && text == Accumulated(replies[..i]) && errors == Count(replies[..i], PageFailed)
    ensures events' == LoopEvents(n, i + 1) && text' == Accumulated(replies[..i + 1])
    ensures errors' == Count(replies[..i + 1], PageFailed)
  {
    LoopEventsStep(n, i);
    events' := events + [PageEvent(i + 1, n)];
    var chunk, failed := ProcessPage(i + 1, replies[i]);
    text' := text + chunk;
    errors' := if failed then errors + 1 else errors;
    PagePrefixStep(replies, i);
  }

  lemma LoopEventsStep(n: nat, i: nat)
    ensures LoopEvents(n, i + 1) == LoopEvents(n, i) + [PageEvent(i + 1, n)]
  {
  }

  /** Extending the processed pages by page `i + 1` extends the text by its chunk and the counter by its failure. */
  lemma PagePrefixStep(replies: seq<ModelReply>, i: nat)
    requires i < |replies|
    ensures Accumulated(replies[..i + 1]) == Accumulated(replies[..i]) + PageChunk(i + 1, replies[i])
    ensures Count(replies[..i + 1], PageFailed) == Count(replies[..i], PageFailed) + (if PageFailed(replies[i]) then 1 else 0)
  {
    var done := replies[..i + 1];
    assert done[..i] == replies[..i] && done[i] == replies[i];
  }

  lemma BlankAppend(a: string, b: string)
    ensures IsBlank(a + b) <==> IsBlank(a) && IsBlank(b)
  {
    if IsBlank(a + b) {
      forall i | 0 <= i < |b| ensures IsSpace(b[i]) {
        assert b[i] == (a + b)[|a| + i];
      }
      forall i | 0 <= i < |a| ensures IsSpace(a[i]) {
        assert a[i] == (a + b)[i];
      }
    }
  }

  /** A page's chunk is blank exactly when the page succeeded with whitespace only. */
  lemma ChunkBlank(k: nat, r: ModelReply)
    ensures IsBlank(PageChunk(k, r)) <==> !PageFailed(r) && IsBlank(r.text)
  {
    var c := PageChunk(k, r);
    if PageFailed(r) {
      assert c[0] == '[';
    } else {
      StripEmptyIffBlank(r.text);
      BlankAppend(Strip(r.text), "\n\n");
      if Strip(r.text) != [] {
        assert !IsSpace(Strip(r.text)[0]) by { StripIsSlice(r.text); }
      }
    }
  }

  /** No reply ends the loop: the text is blank exactly when every replied page succeeded with whitespace only. */
  lemma {:induction false} AccumulatedBlank(replies: seq<ModelReply>)
    ensures IsBlank(Accumulated(replies)) <==> AllBlankPages(replies)
  {
    if replies != [] {
      var before := replies[..|replies| - 1];
      var last := replies[|replies| - 1];
      AccumulatedBlank(before);
      BlankAppend(Accumulated(before), PageChunk(|replies|, last));
      ChunkBlank(|replies|, last);
      AllBlankSnoc(replies);
    }
  }

  /** Every page succeeded with whitespace only. */
  predicate AllBlankPages(replies: seq<ModelReply>) {
    forall k :: 0 <= k < |replies| ==> !PageFailed(replies[k]) && IsBlank(replies[k].text)
  }

  lemma AllBlankSnoc(replies: seq<ModelReply>)
    requires replies != []
    ensures AllBlankPages(replies) <==>
      AllBlankPages(replies[..|replies| - 1]) && !PageFailed(replies[|replies| - 1]) && IsBlank(replies[|replies| - 1].text)
  {
    var before := replies[..|replies| - 1];
    assert forall k :: 0 <= k < |before| ==> before[k] == replies[k];
  }

  /** A single failed page already makes the accumulated text non-blank, so the run reports success. */
  lemma FailedPageMakesTextNonBlank(replies: seq<ModelReply>, k: int)
    requires 0 <= k < |replies| && PageFailed(replies[k])
    ensures !IsBlank(Accumulated(replies))
  {
    AccumulatedBlank(replies);
  }

  /** The two PDF entry points differ only in the prompt and in the message for an empty result. */
  datatype PdfMode = Translate | OcrOnly

  function NothingMessage(mode: PdfMode): string {
    match mode
    case Translate => "未能取得任何翻譯文字"
    case OcrOnly => "未能取得任何 OCR 文字"
  }

  /** The message the entry points' handler reports for an exception. */
  function PdfFailure(message: string): Event {
    Error("處理 PDF 檔案失敗: " + message)
  }

  /**
    The specification of `run_ocr_translation` and `run_ocr_only` on a document
    of `n` pages. `modelError` and `openError` are exceptions of
    `genai.GenerativeModel` and `fitz.open`, `saveError` one of writing the Word
    file; `replies` and `loadError` are as for the page loop.
  */
  function PdfOcrRun(mode: PdfMode, modelError: Option<string>, openError: Option<string>, n: nat,
                     replies: seq<ModelReply>, loadError: Option<string>, saveError: Option<string>): StepRun
  {
    if modelError.Some? then StepRun([PdfFailure(modelError.value)], false)
    else if openError.Some? then StepRun([PdfFailure(openError.value)], false)
    else
      var pageEvents := LoopEvents(n, Visited(replies, loadError));
      if loadError.Some? then StepRun(pageEvents + [PdfFailure(loadError.value)], false)
      else if IsBlank(Accumulated(replies)) then StepRun(pageEvents + [Error(NothingMessage(mode))], false)
      else if saveError.Some? then StepRun(pageEvents + [PdfFailure(saveError.value)], false)
      else StepRun(pageEvents, true)
  }

  /** `run_ocr_translation` / `run_ocr_only`; `saved` is the one paragraph written to the Word file. */
  method RunPdfOcr(mode: PdfMode, modelError: Option<string>, openError: Option<string>, n: nat,
                   replies: seq<ModelReply>, loadError: Option<string>, saveError: Option<string>)
    returns (run: StepRun, saved: Option<string>)
    requires PagesFit(n, replies, loadError)
    ensures run == PdfOcrRun(mode, modelError, openError, n, replies, loadError, saveError)
    ensures saved == if run.ok then Some(Accumulated(replies)) else None
  {
    if modelError.Some? {
      return StepRun([PdfFailure(modelError.value)], false), None;
    }
    if openError.Some? {
      return StepRun([PdfFailure(openError.value)], false), None;
    }
    var pages := ProcessPdfPages(n, replies, loadError);
    if pages.raised.Some? {
      return StepRun(pages.events + [PdfFailure(pages.raised.value)], false), None;
    }
    if IsBlank(pages.text) {
      return StepRun(pages.events + [Error(NothingMessage(mode))], false), None;
    }
    if saveError.Some? {
      return StepRun(pages.events + [PdfFailure(saveError.value)], false), None;
    }
    run, saved := StepRun(pages.events, true), Some(pages.text);
  }

  /**
    Success is decided by the accumulated text alone: `True` exactly when no
    exception occurred and the text is non-blank; otherwise the run's last event
    is its only `error` event. A successful run announced every page.
  */
  lemma PdfOcrOutcome(mode: PdfMode, modelError: Option<string>, openError: Option<string>, n: nat,
                      replies: seq<ModelReply>, loadError: Option<string>, saveError: Option<string>)
    requires PagesFit(n, replies, loadError)
    ensures var run := PdfOcrRun(mode, modelError, openError, n, replies, loadError, saveError);
      && (run.ok <==> modelError.None? && openError.None? && loadError.None? && saveError.None? && !IsBlank(Accumulated(replies)))
      && (run.ok ==> CountTerminal(run.events) == 0 && run.events == LoopEvents(n, n))
      && (!run.ok ==> run.events != [] && run.events[|run.events| - 1].Error? && CountTerminal(run.events) == 1)
  {
    var run := PdfOcrRun(mode, modelError, openError, n, replies, loadError, saveError);
    if modelError.Some? || openError.Some? {
      CountTerminalSnoc([], run.events[0]);
      assert run.events == [] + [run.events[0]];
    } else {
      var visited := Visited(replies, loadError);
      if loadError.Some? {
        LoopThenError(n, visited, PdfFailure(loadError.value));
      } else if IsBlank(Accumulated(replies)) {
        LoopThenError(n, visited, Error(NothingMessage(mode)));
      } else if saveError.Some? {
        LoopThenError(n, visited, PdfFailure(saveError.value));
      } else {
        LoopQuiet(n, visited);
      }
    }
  }

  /** The page loop's events followed by one `error`: the error is last and the only terminal event. */
  lemma LoopThenError(n: nat, visited: nat, e: Event)
    requires e.Error?
    ensures var events := LoopEvents(n, visited) + [e];
      events[|events| - 1].Error? && CountTerminal(events) == 1
  {
    LoopQuiet(n, visited);
    CountTerminalSnoc(LoopEvents(n, visited), e);
  }

  /** The page loop only reports progress. */
  lemma LoopQuiet(n: nat, visited: nat)
    ensures CountTerminal(LoopEvents(n, visited)) == 0
  {
    var events := LoopEvents(n, visited);
    assert forall k :: 0 <= k < |events| ==> events[k].Progress?;
    NoTerminal(events);
  }

  /**
    The specification of `run_ocr_translation_for_image`. `modelError` and
    `openError` are exceptions of `genai.GenerativeModel` and `Image.open`,
    `saveError` one of writing the Word file.
  */
  function ImageOcrRun(modelError: Option<string>, openError: Option<string>, reply: ModelReply,
                       saveError: Option<string>): StepRun
  {
    if modelError.Some? then StepRun([Error("處理圖片失敗: " + modelError.value)], false)
    else if openError.Some? then StepRun([Error("處理圖片失敗: " + openError.value)], false)
    else
      var call := Status(None, "呼叫 AI 進行辨識翻譯...", None);
      match reply
      case Fails(e) => StepRun([call, Error("處理圖片失敗: " + e)], false)
      case Reply(t, feedback) =>
        if t == [] then StepRun([call, Error("處理圖片失敗: Gemini API 未能生成有效的翻譯文字" + BlockReason(feedback))], false)
        else if saveError.Some? then StepRun([call, Error("處理圖片失敗: " + saveError.value)], false)
        else StepRun([call], true)
  }

  /**
    The image variant succeeds exactly when the reply text is non-empty (even if
    it is only whitespace) and nothing raised; it reports the model call first.
  */
  lemma ImageOcrOutcome(modelError: Option<string>, openError: Option<string>, reply: ModelReply, saveError: Option<string>)
    ensures var run := ImageOcrRun(modelError, openError, reply, saveError);
      && (run.ok <==> modelError.None? && openError.None? && reply.Reply? && reply.text != [] && saveError.None?)
      && (modelError.None? && openError.None? ==> run.events[0] == Status(None, "呼叫 AI 進行辨識翻譯...", None))
      && (!run.ok ==> run.events[|run.events| - 1].Error? && CountTerminal(run.events) == 1)
      && (run.ok ==> CountTerminal(run.events) == 0)
  {
    var run := ImageOcrRun(modelError, openError, reply, saveError);
    var last := run.events[|run.events| - 1];
    CountTerminalSnoc([], run.events[0]);
    assert [] + [run.events[0]] == [run.events[0]];
    if |run.events| == 2 {
      CountTerminalSnoc([run.events[0]], last);
      assert [run.events[0]] + [last] == run.events;
    }
  }
}
