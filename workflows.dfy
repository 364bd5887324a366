/**
  The six `run_*_workflow` functions of app.py as specifications: each is a
  short-circuiting sequence of steps inside one `try`, whose first failure
  raises; the `except` puts an `error` event, and the `finally` puts `done`
  unless the workflow succeeded. The results of the transforms, of reading
  text files, of the model's translation call and of the final desktop copy
  are inputs (`Outcomes`).
*/
module Workflows {
  import opened Common
  import opened Text
  import opened Paths
  import opened Events
  import Desktop
  import PdfSplitter
  import TextSummarizer
  import PdfOcr

  // ---------------------------------------------------------------- the flow of one `try`

  /** The events put so far and, once a step has raised, the exception's message. */
  datatype Flow = Flow(events: seq<Event>, raised: Option<string>)

  const Start: Flow := Flow([], None)

  /** Before anything raised, at most the failing step's own `error` event is on the channel. */
  predicate Clean(f: Flow) {
    && (f.raised.None? ==> CountTerminal(f.events) == 0)
    && (f.raised.Some? ==> CountTerminal(f.events) <= 1)
  }

  lemma StartClean()
    ensures Clean(Start)
  {
    assert CountTerminal([]) == 0;
  }

  /** `progress_queue.put(e)`, skipped once a step has raised. */
  function Put(f: Flow, e: Event): (r: Flow)
    ensures f.raised.None? ==> r == Flow(f.events + [e], None)
    ensures f.raised.Some? ==> r == f
    ensures Clean(f) && !IsTerminal(e) ==> Clean(r)
  {
    if f.raised.Some? then f
    else
      CountTerminalAppend(f.events, [e]);
      assert CountTerminal([e]) == Count([], IsTerminal) + (if IsTerminal(e) then 1 else 0);
      Flow(f.events + [e], None)
  }

  /** `if not run_x(...): raise Exception(failure)`: the transform's own events, then a raise if it returned False. */
  function Call(f: Flow, run: StepRun, failure: string): (r: Flow)
    ensures f.raised.None? ==> r == Flow(f.events + run.events, if run.ok then None else Some(failure))
    ensures f.raised.Some? ==> r == f
    ensures Clean(f) && Reports(run) ==> Clean(r)
  {
    if f.raised.Some? then f
    else
      CountTerminalAppend(f.events, run.events);
      Flow(f.events + run.events, if run.ok then None else Some(failure))
  }

  /** `text = read_text_from_file(...)` and `if not text.strip(): raise ValueError(blank)`. */
  function ReadText(f: Flow, read: Result<string>, blank: string): (r: Flow)
    ensures r.events == f.events
    ensures r.raised.None? <==> f.raised.None? && read.Ok? && !IsBlank(read.value)
    ensures f.raised.None? && read.Raised? ==> r.raised == Some(read.message)
    ensures f.raised.None? && read.Ok? && IsBlank(read.value) ==> r.raised == Some(blank)
    ensures Clean(f) ==> Clean(r)
  {
    if f.raised.Some? then f
    else match read
      case Raised(m) => Flow(f.events, Some(m))
      case Ok(t) => if IsBlank(t) then Flow(f.events, Some(blank)) else f
  }

  /** A check that raises `failure` when `fails` holds (`if not ...: raise Exception(failure)`). */
  function Check(f: Flow, fails: bool, failure: string): (r: Flow)
    ensures r.events == f.events
    ensures r.raised.None? <==> f.raised.None? && !fails
    ensures f.raised.None? && fails ==> r.raised == Some(failure)
    ensures Clean(f) ==> Clean(r)
  {
    if f.raised.Some? || !fails then f else Flow(f.events, Some(failure))
  }

  const TranslationMissing: string := "步驟 2 (翻譯) 失敗: AI 未返回有效的翻譯內容。"

  /**
    Step 2 of the full report: the model's translation of the OCR text, then the
    Word save of the reply (`saveError`). An exception raises its own message;
    an empty reply raises `TranslationMissing`.
  */
  function Translate(f: Flow, reply: ModelReply, saveError: Option<string>): (r: Flow)
    ensures r.events == f.events
    ensures r.raised.None? <==> f.raised.None? && reply.Reply? && reply.text != [] && saveError.None?
    ensures Clean(f) ==> Clean(r)
  {
    if f.raised.Some? then f
    else match reply
      case Fails(m) => Flow(f.events, Some(m))
      case Reply(t, _) =>
        if t == [] then Flow(f.events, Some(TranslationMissing))
        else if saveError.Some? then Flow(f.events, Some(saveError.value))
        else f
  }

  // ---------------------------------------------------------------- how a workflow ends

  /** What a workflow put on its channel and its `overall_success`. */
  datatype WorkflowRun = WorkflowRun(events: seq<Event>, success: bool)

  /** The text of the `complete` event: with the final file's name in quotes, or fixed. */
  datatype CompleteText = Named(before: string, after: string) | Plain(text: string)

  function CompleteMessage(t: CompleteText, name: string): string {
    match t
    case Named(before, after) => before + "\"" + name + "\"" + after
    case Plain(text) => text
  }

  /** The `except` and `finally` of a failed workflow: `error` with the exception's message, then `done`. */
  function Failed(events: seq<Event>, message: string): (r: WorkflowRun)
    ensures !r.success && |r.events| == |events| + 2
    ensures r.events[..|events|] == events
    ensures r.events[|events|] == Error("處理失敗: " + message) && r.events[|events| + 1] == Done
  {
    WorkflowRun(events + [Error("處理失敗: " + message), Done], false)
  }

  /**
    The final copy to the desktop and the end of the `try`: a copy that returned
    `(None, None)` raises `copyFailure`; otherwise `complete` carries the folder two
    levels above the copied file.
  */
  function Finish(f: Flow, finalCopy: Option<Desktop.Placed>, copyFailure: string, text: CompleteText): WorkflowRun {
    if f.raised.Some? then Failed(f.events, f.raised.value)
    else if finalCopy.None? then Failed(f.events, copyFailure)
    else
      var placed := finalCopy.value;
      WorkflowRun(f.events + [Complete(CompleteMessage(text, placed.name), Some(Dirname(Dirname(placed.path))))], true)
  }

  /**
    The terminal-event protocol: a successful workflow's last event is its only
    terminal one, a `complete` with a folder; a failed one ends with `error` then
    `done`, and before them holds at most the failing step's own `error`.
  */
  predicate Protocol(run: WorkflowRun) {
    && run.events != []
    && (run.success ==>
          run.events[|run.events| - 1].Complete? && run.events[|run.events| - 1].folder.Some? &&
          CountTerminal(run.events) == 1)
    && (!run.success ==>
          |run.events| >= 2 && run.events[|run.events| - 2].Error? && run.events[|run.events| - 1] == Done &&
          2 <= CountTerminal(run.events) <= 3)
  }

  lemma FailedProtocol(events: seq<Event>, message: string)
    requires CountTerminal(events) <= 1
    ensures Protocol(Failed(events, message))
  {
    var tail := [Error("處理失敗: " + message), Done];
    CountTerminalAppend(events, tail);
    assert tail == [tail[0]] + [Done];
    CountTerminalAppend([tail[0]], [Done]);
    assert CountTerminal([Done]) == 1 && CountTerminal([tail[0]]) == 1 by {
      assert [Done][..0] == [] && [tail[0]][..0] == [];
    }
  }

  lemma FinishProtocol(f: Flow, finalCopy: Option<Desktop.Placed>, copyFailure: string, text: CompleteText)
    requires Clean(f)
    ensures Protocol(Finish(f, finalCopy, copyFailure, text))
  {
    if f.raised.Some? || finalCopy.None? {
      FailedProtocol(f.events, if f.raised.Some? then f.raised.value else copyFailure);
    } else {
      var e := Complete(CompleteMessage(text, finalCopy.value.name), Some(Dirname(Dirname(finalCopy.value.path))));
      CountTerminalAppend(f.events, [e]);
      assert [e][..0] == [];
    }
  }

  // ---------------------------------------------------------------- the outcomes of a task's steps

  /** What the split transform did: returned `(split_count, output_dir)`, or raised past its own handlers. */
  datatype SplitCall = Returned(count: int, outputDir: Option<string>, events: seq<Event>) | Escaped(events: seq<Event>, message: string)

  /**
    Everything a workflow depends on that the model does not compute: the PDF
    and image OCR transforms, `read_text_from_file`, the translation reply and its
    save, the summarizer, the slide conversion's return value, the final desktop
    copy and the split transform.
  */
  datatype Outcomes = Outcomes(
    ocr: StepRun, image: StepRun, read: Result<string>, translation: ModelReply, translationSave: Option<string>,
    summary: StepRun, ppt: bool, finalCopy: Option<Desktop.Placed>, split: SplitCall)

  /** The transforms keep their event promise (proved for each of them below). */
  predicate Reported(o: Outcomes) {
    && Reports(o.ocr) && Reports(o.image) && Reports(o.summary)
    && (o.split.Escaped? ==> CountTerminal(o.split.events) == 0)
    && (o.split.Returned? && o.split.count > 0 ==> CountTerminal(o.split.events) == 0)
    && (o.split.Returned? && o.split.count <= 0 ==> CountTerminal(o.split.events) <= 1)
  }

  // ---------------------------------------------------------------- the six workflows

  /** `run_text_to_ppt_workflow`: read the uploaded text, summarize it, convert the summary to slides. */
  function TextToPptSteps(o: Outcomes): (r: Flow)
    ensures Reports(o.summary) ==> Clean(r)
  {
    StartClean();
    var f := Put(Start, Status(Some(1), "讀取檔案內容...", Some(10)));
    assert Reports(o.summary) ==> Clean(f);
    var f := ReadText(f, o.read, "上傳的檔案內容為空或無法讀取。");
    assert Reports(o.summary) ==> Clean(f);
    var f := Put(f, Status(Some(2), "生成摘要...", Some(25)));
    assert Reports(o.summary) ==> Clean(f);
    var f := Call(f, o.summary, "步驟 2 (生成摘要) 失敗");
    assert Reports(o.summary) ==> Clean(f);
    var f := Put(f, Status(Some(3), "生成簡報...", Some(80)));
    assert Reports(o.summary) ==> Clean(f);
    Check(f, !o.ppt, "步驟 3 (轉換為簡報) 失敗")
  }

  function TextToPpt(o: Outcomes): WorkflowRun {
    Finish(TextToPptSteps(o), o.finalCopy, "儲存最終簡報到桌面失敗", Named("簡報 ", " 及摘要檔案已分類儲存。"))
  }

  /** `run_full_report_workflow`: OCR, translation, summary and slides, four files in all. */
  function FullReportSteps(o: Outcomes): (r: Flow)
    ensures Reports(o.ocr) && Reports(o.summary) ==> Clean(r)
  {
    StartClean();
    var f := Put(Start, Status(Some(1), "掃描原文 (OCR)...", Some(5)));
    assert Reports(o.ocr) && Reports(o.summary) ==> Clean(f);
    var f := Call(f, o.ocr, "步驟 1 (掃描原文) 失敗");
    assert Reports(o.ocr) && Reports(o.summary) ==> Clean(f);
    var f := ReadText(f, o.read, "掃描後的原文內容為空");
    assert Reports(o.ocr) && Reports(o.summary) ==> Clean(f);
    var f := Put(f, Status(Some(2), "翻譯原文...", Some(30)));
    assert Reports(o.ocr) && Reports(o.summary) ==> Clean(f);
    var f := Translate(f, o.translation, o.translationSave);
    assert Reports(o.ocr) && Reports(o.summary) ==> Clean(f);
    var f := Put(f, Status(Some(3), "生成摘要...", Some(55)));
    assert Reports(o.ocr) && Reports(o.summary) ==> Clean(f);
    var f := Call(f, o.summary, "步驟 3 (生成摘要) 失敗");
    assert Reports(o.ocr) && Reports(o.summary) ==> Clean(f);
    var f := Put(f, Status(Some(4), "生成簡報...", Some(80)));
    assert Reports(o.ocr) && Reports(o.summary) ==> Clean(f);
    Check(f, !o.ppt, "步驟 4 (轉換為簡報) 失敗")
  }

  function FullReport(o: Outcomes): WorkflowRun {
    Finish(FullReportSteps(o), o.finalCopy, "儲存最終簡報到桌面失敗", Plain("完整報告處理完成，4類檔案已分類儲存。"))
  }

  /** `run_full_workflow` (PDF to slides): OCR with translation, summary, slides. */
  function PdfToPptSteps(o: Outcomes): (r: Flow)
    ensures Reports(o.ocr) && Reports(o.summary) ==> Clean(r)
  {
    StartClean();
    var f := Put(Start, Status(Some(1), "OCR與翻譯...", Some(5)));
    assert Reports(o.ocr) && Reports(o.summary) ==> Clean(f);
    var f := Call(f, o.ocr, "步驟 1 (OCR/翻譯) 失敗");
    assert Reports(o.ocr) && Reports(o.summary) ==> Clean(f);
    var f := Put(f, Status(Some(2), "生成摘要...", Some(40)));
    assert Reports(o.ocr) && Reports(o.summary) ==> Clean(f);
    var f := ReadText(f, o.read, "翻譯檔案內容為空");
    assert Reports(o.ocr) && Reports(o.summary) ==> Clean(f);
    var f := Call(f, o.summary, "步驟 2 (生成摘要) 失敗");
    assert Reports(o.ocr) && Reports(o.summary) ==> Clean(f);
    var f := Put(f, Status(Some(3), "生成簡報...", Some(80)));
    assert Reports(o.ocr) && Reports(o.summary) ==> Clean(f);
    Check(f, !o.ppt, "步驟 3 (轉換為簡報) 失敗")
  }

  function PdfToPpt(o: Outcomes): WorkflowRun {
    Finish(PdfToPptSteps(o), o.finalCopy, "儲存最終簡報到桌面失敗", Named("快速簡報 ", " 及過程檔案已分類儲存。"))
  }

  /** `ext.lower() == '.pdf'`: which OCR transform the OCR workflow calls. */
  predicate IsPdf(uploadedPath: string) {
    Lower(SplitExt(uploadedPath).1) == ".pdf"
  }

  /** `run_ocr_workflow`: the PDF or the image OCR transform, then the copy. */
  function OcrWorkflowSteps(uploadedPath: string, o: Outcomes): (r: Flow)
    ensures Reports(o.ocr) && Reports(o.image) ==> Clean(r)
  {
    var f := Put(Start, Status(Some(1), "OCR 與翻譯處理中...", Some(5)));
    Call(f, if IsPdf(uploadedPath) then o.ocr else o.image, "OCR 與翻譯步驟失敗")
  }

  function OcrWorkflow(uploadedPath: string, o: Outcomes): WorkflowRun {
    Finish(OcrWorkflowSteps(uploadedPath, o), o.finalCopy, "儲存檔案到桌面失敗", Named("翻譯檔案 ", " 已儲存。"))
  }

  /** `run_summarize_workflow`: OCR, then a summary of the OCR text. */
  function SummarizeWorkflowSteps(o: Outcomes): (r: Flow)
    ensures Reports(o.ocr) && Reports(o.summary) ==> Clean(r)
  {
    StartClean();
    var f := Call(Start, o.ocr, "步驟 1 (OCR) 失敗");
    assert Reports(o.ocr) && Reports(o.summary) ==> Clean(f);
    var f := ReadText(f, o.read, "OCR 結果為空");
    assert Reports(o.ocr) && Reports(o.summary) ==> Clean(f);
    Call(f, o.summary, "步驟 2 (摘要) 失敗")
  }

  function SummarizeWorkflow(o: Outcomes): WorkflowRun {
    Finish(SummarizeWorkflowSteps(o), o.finalCopy, "儲存檔案到桌面失敗", Named("摘要檔案 ", " 已儲存。"))
  }

  const NoStructureMessage: string := "AI 未能分析出有效的目錄結構，無法分割。"
  const UnknownSplitFailure: string := "檔案分割過程中發生未知錯誤。"

  /** `run_split_workflow`: the split count decides between `complete` and the two failures. */
  function SplitWorkflow(call: SplitCall): WorkflowRun {
    match call
    case Escaped(events, m) => Failed(events, m)
    case Returned(count, outputDir, events) =>
      if count > 0 then
        WorkflowRun(events + [Complete("成功分割成 " + NatToString(count) + " 個檔案。", outputDir)], true)
      else if count == 0 then Failed(events, NoStructureMessage)
      else Failed(events, UnknownSplitFailure)
  }

  /** The workflow `task_worker` dispatches a task type to, `None` for a type it does not know. */
  function Workflow(taskType: string, uploadedPath: string, o: Outcomes): Option<WorkflowRun> {
    if taskType == "pdf_to_ppt" then Some(PdfToPpt(o))
    else if taskType == "full_report" then Some(FullReport(o))
    else if taskType == "ocr" then Some(OcrWorkflow(uploadedPath, o))
    else if taskType == "summarize" then Some(SummarizeWorkflow(o))
    else if taskType == "file_split" then Some(SplitWorkflow(o.split))
    else if taskType == "text_to_ppt" then Some(TextToPpt(o))
    else None
  }

  // ---------------------------------------------------------------- properties

  /**
    Every workflow keeps the terminal-event protocol, provided the transforms
    keep theirs; a successful split has a folder when the split returned one.
  */
  lemma WorkflowProtocol(taskType: string, uploadedPath: string, o: Outcomes)
    requires Reported(o)
    requires o.split.Returned? && o.split.count > 0 ==> o.split.outputDir.Some?
    ensures Workflow(taskType, uploadedPath, o).Some? ==> Protocol(Workflow(taskType, uploadedPath, o).value)
  {
    if taskType == "pdf_to_ppt" {
      PdfToPptProtocol(o);
    } else if taskType == "full_report" {
      FullReportProtocol(o);
    } else if taskType == "ocr" {
      OcrProtocol(uploadedPath, o);
    } else if taskType == "summarize" {
      SummarizeProtocol(o);
    } else if taskType == "file_split" {
      SplitProtocol(o.split);
    } else if taskType == "text_to_ppt" {
      TextToPptProtocol(o);
    }
  }

  lemma TextToPptProtocol(o: Outcomes)
    requires Reports(o.summary)
    ensures Protocol(TextToPpt(o))
  {
    FinishProtocol(TextToPptSteps(o), o.finalCopy, "儲存最終簡報到桌面失敗", Named("簡報 ", " 及摘要檔案已分類儲存。"));
  }

  lemma FullReportProtocol(o: Outcomes)
    requires Reports(o.ocr) && Reports(o.summary)
    ensures Protocol(FullReport(o))
  {
    FinishProtocol(FullReportSteps(o), o.finalCopy, "儲存最終簡報到桌面失敗", Plain("完整報告處理完成，4類檔案已分類儲存。"));
  }

  lemma PdfToPptProtocol(o: Outcomes)
    requires Reports(o.ocr) && Reports(o.summary)
    ensures Protocol(PdfToPpt(o))
  {
    FinishProtocol(PdfToPptSteps(o), o.finalCopy, "儲存最終簡報到桌面失敗", Named("快速簡報 ", " 及過程檔案已分類儲存。"));
  }

  lemma OcrProtocol(uploadedPath: string, o: Outcomes)
    requires Reports(o.ocr) && Reports(o.image)
    ensures Protocol(OcrWorkflow(uploadedPath, o))
  {
    FinishProtocol(OcrWorkflowSteps(uploadedPath, o), o.finalCopy, "儲存檔案到桌面失敗", Named("翻譯檔案 ", " 已儲存。"));
  }

  lemma SummarizeProtocol(o: Outcomes)
    requires Reports(o.ocr) && Reports(o.summary)
    ensures Protocol(SummarizeWorkflow(o))
  {
    FinishProtocol(SummarizeWorkflowSteps(o), o.finalCopy, "儲存檔案到桌面失敗", Named("摘要檔案 ", " 已儲存。"));
  }

  lemma SplitProtocol(call: SplitCall)
    requires call.Escaped? || call.count <= 0 ==> CountTerminal(call.events) <= 1
    requires call.Returned? && call.count > 0 ==> CountTerminal(call.events) == 0 && call.outputDir.Some?
    ensures Protocol(SplitWorkflow(call))
  {
    match call
    case Escaped(events, m) => FailedProtocol(events, m);
    case Returned(count, outputDir, events) =>
      if count > 0 {
        var e := Complete("成功分割成 " + NatToString(count) + " 個檔案。", outputDir);
        CountTerminalAppend(events, [e]);
        assert [e][..0] == [];
      } else {
        FailedProtocol(events, if count == 0 then NoStructureMessage else UnknownSplitFailure);
      }
  }

  /** A workflow succeeds exactly when every step of its `try` succeeds and the final copy returns a path. */
  lemma TextToPptSucceeds(o: Outcomes)
    ensures TextToPpt(o).success <==> o.read.Ok? && !IsBlank(o.read.value) && o.summary.ok && o.ppt && o.finalCopy.Some?
  {
  }

  lemma FullReportSucceeds(o: Outcomes)
    ensures FullReport(o).success <==>
      o.ocr.ok && o.read.Ok? && !IsBlank(o.read.value) && o.translation.Reply? && o.translation.text != [] &&
      o.translationSave.None? && o.summary.ok && o.ppt && o.finalCopy.Some?
  {
  }

  lemma PdfToPptSucceeds(o: Outcomes)
    ensures PdfToPpt(o).success <==> o.ocr.ok && o.read.Ok? && !IsBlank(o.read.value) && o.summary.ok && o.ppt && o.finalCopy.Some?
  {
  }

  lemma OcrSucceeds(uploadedPath: string, o: Outcomes)
    ensures OcrWorkflow(uploadedPath, o).success <==> (if IsPdf(uploadedPath) then o.ocr.ok else o.image.ok) && o.finalCopy.Some?
  {
  }

  lemma SummarizeSucceeds(o: Outcomes)
    ensures SummarizeWorkflow(o).success <==> o.ocr.ok && o.read.Ok? && !IsBlank(o.read.value) && o.summary.ok && o.finalCopy.Some?
  {
  }

  /**
    A successful workflow's `complete` names the file the final copy placed and
    carries the folder two levels above it.
  */
  lemma CompleteCarriesFolder(o: Outcomes, f: Flow, copyFailure: string, text: CompleteText)
    requires Finish(f, o.finalCopy, copyFailure, text).success
    ensures var run := Finish(f, o.finalCopy, copyFailure, text);
      && o.finalCopy.Some?
      && run.events[|run.events| - 1] ==
         Complete(CompleteMessage(text, o.finalCopy.value.name), Some(Dirname(Dirname(o.finalCopy.value.path))))
  {
  }

  /**
    The folder a workflow reports is the output root on the desktop: two levels
    above `<desktop>/AI 工具輸出/<category>/<file>`.
  */
  lemma ReportedFolderIsOutputRoot(home: string, dirs: set<string>, category: string, name: string)
    requires category != [] && category[0] != '/' && !Contains(category, '/')
    requires name != [] && name[0] != '/' && !Contains(name, '/')
    ensures var root := Join(Desktop.DesktopPath(home, dirs), Desktop.BaseOutputFolderName);
      Dirname(Dirname(Join(Desktop.TargetFolder(home, dirs, category), name))) == root
  {
    var root := Join(Desktop.DesktopPath(home, dirs), Desktop.BaseOutputFolderName);
    var base := Desktop.BaseOutputFolderName;
    assert root == Lead(Desktop.DesktopPath(home, dirs)) + base;
    assert root[|root| - 1] == base[|base| - 1];
    var folder := Join(root, category);
    assert folder == Lead(root) + category;
    assert folder[|folder| - 1] == category[|category| - 1];
    DirnameOfJoin(folder, name);
    DirnameOfJoin(root, category);
  }

  /** Blank text read back from a file stops the workflow before the summarizer: its outcome plays no part. */
  lemma BlankTextSkipsSummary(o: Outcomes, other: StepRun)
    requires o.read.Ok? && IsBlank(o.read.value)
    ensures !TextToPpt(o).success && TextToPpt(o) == TextToPpt(o.(summary := other))
    ensures !PdfToPpt(o).success && PdfToPpt(o) == PdfToPpt(o.(summary := other))
    ensures !SummarizeWorkflow(o).success && SummarizeWorkflow(o) == SummarizeWorkflow(o.(summary := other))
    ensures !FullReport(o).success && FullReport(o) == FullReport(o.(summary := other))
  {
  }

  /** Blank OCR text in the full report also stops it before the translation call. */
  lemma BlankOcrSkipsTranslation(o: Outcomes, reply: ModelReply)
    requires o.read.Ok? && IsBlank(o.read.value)
    ensures FullReport(o) == FullReport(o.(translation := reply))
  {
  }

  /**
    A summarizer that fails reports the failure twice: its own `error` event is
    followed by the workflow's `error` and then `done`, so the task carries three
    terminal events and a stream stops at the summarizer's.
  */
  lemma SummaryFailureReportedTwice(o: Outcomes)
    requires o.read.Ok? && !IsBlank(o.read.value)
    requires !o.summary.ok && Reports(o.summary)
    ensures var statuses := [Status(Some(1), "讀取檔案內容...", Some(10)), Status(Some(2), "生成摘要...", Some(25))];
      TextToPpt(o).events == statuses + o.summary.events + [Error("處理失敗: 步驟 2 (生成摘要) 失敗"), Done]
    ensures CountTerminal(TextToPpt(o).events) == 3
    ensures FirstTerminal(TextToPpt(o).events) == o.summary.events[|o.summary.events| - 1]
  {
    var statuses := [Status(Some(1), "讀取檔案內容...", Some(10)), Status(Some(2), "生成摘要...", Some(25))];
    var failure := "步驟 2 (生成摘要) 失敗";
    TextToPptSummaryFailure(o);
    SummaryStepMessage();
    var events := statuses + o.summary.events + [Error("處理失敗: " + failure), Done];
    assert TextToPpt(o).events == events;
    NoTerminal(statuses);
    TwiceReported(statuses, o.summary.events, failure);
  }

  lemma SummaryStepMessage()
    ensures "處理失敗: " + "步驟 2 (生成摘要) 失敗" == "處理失敗: 步驟 2 (生成摘要) 失敗"
  {
  }

  lemma TextToPptSummaryFailure(o: Outcomes)
    requires o.read.Ok? && !IsBlank(o.read.value) && !o.summary.ok
    ensures var statuses := [Status(Some(1), "讀取檔案內容...", Some(10)), Status(Some(2), "生成摘要...", Some(25))];
      TextToPpt(o) == Failed(statuses + o.summary.events, "步驟 2 (生成摘要) 失敗")
  {
    var s1, s2 := Status(Some(1), "讀取檔案內容...", Some(10)), Status(Some(2), "生成摘要...", Some(25));
    var failure := "步驟 2 (生成摘要) 失敗";
    var f1 := Put(Start, s1);
    assert f1 == Flow([s1], None);
    var f2 := ReadText(f1, o.read, "上傳的檔案內容為空或無法讀取。");
    var f3 := Put(f2, s2);
    assert f3 == Flow([s1, s2], None);
    var f4 := Call(f3, o.summary, failure);
    assert f4 == Flow([s1, s2] + o.summary.events, Some(failure));
  }

  /**
    A failed step whose own `error` is followed by the workflow's: three terminal
    events, of which the step's comes first.
  */
  lemma TwiceReported(before: seq<Event>, stepEvents: seq<Event>, failure: string)
    requires CountTerminal(before) == 0
    requires Reports(StepRun(stepEvents, false))
    ensures var events := before + stepEvents + [Error("處理失敗: " + failure), Done];
      CountTerminal(events) == 3 && FirstTerminal(events) == stepEvents[|stepEvents| - 1]
  {
    var tail := [Error("處理失敗: " + failure), Done];
    CountTerminalAppend(before, stepEvents);
    CountTerminalAppend(before + stepEvents, tail);
    CountTerminalSnoc([], tail[0]);
    CountTerminalSnoc([tail[0]], Done);
    assert [] + [tail[0]] == [tail[0]] && [tail[0]] + [Done] == tail;
    FirstTerminalLast(stepEvents, tail);
    CountTerminalAppend(stepEvents, tail);
    FirstTerminalAppend(before, stepEvents + tail);
    assert before + stepEvents + tail == before + (stepEvents + tail);
  }

  /** The first terminal event of a sequence, the one after which the event stream stops. */
  function FirstTerminal(s: seq<Event>): (e: Event)
    requires CountTerminal(s) > 0
    ensures IsTerminal(e)
  {
    if IsTerminal(s[0]) then s[0]
    else
      CountTerminalAppend([s[0]], s[1..]);
      assert [s[0]] + s[1..] == s;
      assert CountTerminal([s[0]]) == 0 by { assert [s[0]][..0] == []; }
      FirstTerminal(s[1..])
  }

  lemma {:induction false} FirstTerminalAppend(a: seq<Event>, b: seq<Event>)
    requires CountTerminal(a) == 0 && CountTerminal(b) > 0
    ensures CountTerminal(a + b) > 0 && FirstTerminal(a + b) == FirstTerminal(b)
    decreases |a|
  {
    CountTerminalAppend(a, b);
    if a == [] {
      assert a + b == b;
    } else {
      CountTerminalAppend([a[0]], a[1..]);
      assert [a[0]] + a[1..] == a;
      assert (a + b)[0] == a[0];
      assert (a + b)[1..] == a[1..] + b;
      assert CountTerminal([a[0]]) == (if IsTerminal(a[0]) then 1 else 0) by {
        assert [a[0]][..0] == [];
      }
      FirstTerminalAppend(a[1..], b);
    }
  }

  /** When the only terminal event of `a` is its last, it comes first in `a + b`. */
  lemma {:induction false} FirstTerminalLast(a: seq<Event>, b: seq<Event>)
    requires a != [] && IsTerminal(a[|a| - 1]) && CountTerminal(a) == 1
    ensures CountTerminal(a + b) > 0 && FirstTerminal(a + b) == a[|a| - 1]
    decreases |a|
  {
    CountTerminalAppend(a, b);
    var front := a[..|a| - 1];
    assert a == front + [a[|a| - 1]];
    CountTerminalSnoc(front, a[|a| - 1]);
    if front == [] {
      assert (a + b)[0] == a[0];
    } else {
      assert CountTerminal(front) == 0;
      CountTerminalAppend([a[|a| - 1]], b);
      assert CountTerminal([a[|a| - 1]]) == 1 by {
        assert [a[|a| - 1]][..0] == [];
      }
      FirstTerminalAppend(front, [a[|a| - 1]] + b);
      assert a + b == front + ([a[|a| - 1]] + b);
    }
  }

  /** The split transform's run as the workflow sees it. */
  function SplitCallOf(run: PdfSplitter.SplitRun): SplitCall {
    Returned(run.count, run.outputDir, run.events)
  }

  /**
    The split workflow reports the split's count: a positive count is a success
    whose `complete` carries the split's folder; zero and negative counts fail
    with their two different messages.
  */
  lemma SplitWorkflowReport(home: string, dirs: set<string>, inputPath: string, folderName: string, n: nat,
                            initError: Option<string>, reply: PdfSplitter.TocReply, folderError: Option<string>, failing: set<nat>)
    ensures var split := PdfSplitter.PdfSplit(home, dirs, inputPath, folderName, n, initError, reply, folderError, failing);
      var run := SplitWorkflow(SplitCallOf(split));
      && (run.success <==> split.count > 0)
      && (run.success ==>
            run.events[|run.events| - 1] ==
            Complete("成功分割成 " + NatToString(split.count) + " 個檔案。", Some(PdfSplitter.OutputDir(home, dirs, inputPath, folderName))))
      && (split.count == 0 ==> run.events[|run.events| - 2] == Error("處理失敗: " + NoStructureMessage))
      && (split.count < 0 ==> run.events[|run.events| - 2] == Error("處理失敗: " + UnknownSplitFailure))
      && Protocol(run)
  {
    var split := PdfSplitter.PdfSplit(home, dirs, inputPath, folderName, n, initError, reply, folderError, failing);
    PdfSplitter.PdfSplitOutcome(home, dirs, inputPath, folderName, n, initError, reply, folderError, failing);
    PdfSplitter.PdfSplitReports(home, dirs, inputPath, folderName, n, initError, reply, folderError, failing);
    SplitProtocol(SplitCallOf(split));
  }

  /**
    An empty table of contents is reported twice: the split's own `error`, then
    the workflow's `error` for a zero count, then `done`.
  */
  lemma EmptyTocReportedTwice(home: string, dirs: set<string>, inputPath: string, folderName: string, n: nat,
                              folderError: Option<string>, failing: set<nat>)
    ensures var split := PdfSplitter.PdfSplit(home, dirs, inputPath, folderName, n, None, PdfSplitter.Parsed([]), folderError, failing);
      var events := SplitWorkflow(SplitCallOf(split)).events;
      && split.count == 0
      && events[|events| - 3..] == [Error(PdfSplitter.NoTocMessage), Error("處理失敗: " + NoStructureMessage), Done]
  {
  }

  // ---------------------------------------------------------------- the transforms keep their promise

  /** The step the workflow sees of a summarizer run. */
  function SummaryStep(run: TextSummarizer.SummaryRun): StepRun {
    StepRun(run.events, run.ok)
  }

  lemma SummarizerReports(documentText: string, modelError: Option<string>, reply: ModelReply, writeError: Option<string>)
    ensures Reports(SummaryStep(TextSummarizer.Summarization(documentText, modelError, reply, writeError)))
  {
    TextSummarizer.SummarizationOutcome(documentText, modelError, reply, writeError);
    ShapedSummaryReports(TextSummarizer.Summarization(documentText, modelError, reply, writeError));
  }

  /** A summarizer run of the shape its outcome lemma gives keeps the promise. */
  lemma ShapedSummaryReports(run: TextSummarizer.SummaryRun)
    requires run.ok ==> run.events == [TextSummarizer.InitStatus, TextSummarizer.CallStatus, TextSummarizer.SaveStatus]
    requires !run.ok ==> |run.events| >= 2 && run.events[|run.events| - 1].Error? &&
                         forall k :: 0 <= k < |run.events| - 1 ==> run.events[k].Status?
    ensures Reports(SummaryStep(run))
  {
    if run.ok {
      QuietStepReports(run.events);
    } else {
      var body := run.events[..|run.events| - 1];
      assert run.events == body + [run.events[|run.events| - 1]];
      FailedStepReports(body, run.events[|run.events| - 1]);
    }
  }

  lemma PdfOcrReports(mode: PdfOcr.PdfMode, modelError: Option<string>, openError: Option<string>, n: nat,
                      replies: seq<ModelReply>, loadError: Option<string>, saveError: Option<string>)
    requires PdfOcr.PagesFit(n, replies, loadError)
    ensures Reports(PdfOcr.PdfOcrRun(mode, modelError, openError, n, replies, loadError, saveError))
  {
    PdfOcr.PdfOcrOutcome(mode, modelError, openError, n, replies, loadError, saveError);
  }

  lemma ImageOcrReports(modelError: Option<string>, openError: Option<string>, reply: ModelReply, saveError: Option<string>)
    ensures Reports(PdfOcr.ImageOcrRun(modelError, openError, reply, saveError))
  {
    PdfOcr.ImageOcrOutcome(modelError, openError, reply, saveError);
  }
}
