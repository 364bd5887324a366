/**
  The task orchestration of app.py: `process_task` validates an upload, makes
  the task's scratch folder, registers its progress channel and enqueues its
  record; the single background worker takes records first in, first out,
  dispatches each to its workflow and forgets the channel; `/stream/<id>`
  forwards a channel's events until the first terminal one. Threads, blocking
  and time are not modelled: one call of `WorkerStep` is one iteration of the
  worker's loop, and the stream's waits are an input.
*/
module App {
  import opened Common
  import opened Text
  import opened Paths
  import opened Events
  import opened Workflows
  import Desktop

  // ---------------------------------------------------------------- upload validation

  const PdfExtensions: set<string> := {"pdf"}
  const OcrExtensions: set<string> := {"pdf", "png", "jpg", "jpeg", "bmp", "gif", "webp"}
  const FullReportExtensions: set<string> := {"pdf"}
  const TextExtensions: set<string> := {"docx", "txt"}

  /** `allowed_ext_map.get(task_type)`: the extensions each task type accepts. */
  function AllowedExtensions(taskType: string): Option<set<string>> {
    if taskType == "pdf_to_ppt" then Some(PdfExtensions)
    else if taskType == "full_report" then Some(FullReportExtensions)
    else if taskType == "ocr" then Some(OcrExtensions)
    else if taskType == "summarize" then Some(PdfExtensions)
    else if taskType == "file_split" then Some(PdfExtensions)
    else if taskType == "text_to_ppt" then Some(TextExtensions)
    else None
  }

  /** `allowed_file`: the name has a '.' and the lower-cased text after the last one is allowed. */
  predicate AllowedFile(filename: string, allowed: set<string>) {
    Contains(filename, '.') && Lower(filename[LastIndexOf(filename, '.') + 1..]) in allowed
  }

  /** Position `i` holds the last '.' of `s`. */
  predicate LastDotAt(s: string, i: int) {
    0 <= i < |s| && s[i] == '.' && forall j :: i < j < |s| ==> s[j] != '.'
  }

  /** An independent reading of `allowed_file`: the text after the name's last '.' is an allowed extension. */
  lemma AllowedFileIff(filename: string, allowed: set<string>)
    ensures AllowedFile(filename, allowed) <==>
      exists i :: LastDotAt(filename, i) && Lower(filename[i + 1..]) in allowed
  {
    if AllowedFile(filename, allowed) {
      LastIndexIsLastDot(filename);
      var i := LastIndexOf(filename, '.');
      assert LastDotAt(filename, i) && Lower(filename[i + 1..]) in allowed;
    } else {
      forall i | LastDotAt(filename, i) ensures Lower(filename[i + 1..]) !in allowed {
        LastDotIsLastIndex(filename, i);
      }
    }
  }

  lemma LastIndexIsLastDot(s: string)
    requires Contains(s, '.')
    ensures LastDotAt(s, LastIndexOf(s, '.'))
  {
    var k :| 0 <= k < |s| && s[k] == '.';
    assert k <= LastIndexOf(s, '.');
  }

  lemma LastDotIsLastIndex(s: string, i: int)
    requires LastDotAt(s, i)
    ensures Contains(s, '.') && LastIndexOf(s, '.') == i
  {
    assert s[i] == '.';
    var last := LastIndexOf(s, '.');
    assert last >= i;
  }

  /**
    A name is judged by its last extension alone, in any letter case: whatever
    the stem (dots included), `stem.ext` with a dot-free `ext` passes exactly
    when the lower-cased `ext` is allowed.
  */
  lemma AllowedFileOfParts(stem: string, ext: string, allowed: set<string>)
    requires !Contains(ext, '.')
    ensures AllowedFile(stem + "." + ext, allowed) <==> Lower(ext) in allowed
  {
    var name := stem + "." + ext;
    forall j | |stem| < j < |name| ensures name[j] != '.' {
      assert name[j] == ext[j - |stem| - 1];
    }
    assert name[|stem|] == '.';
    Paths.LastIndexOfUnique(name, '.', |stem|);
    assert name[|stem| + 1..] == ext;
  }

  /** A name without a '.' never passes, whatever the allowed set. */
  lemma DotlessNeverAllowed(filename: string, allowed: set<string>)
    requires !Contains(filename, '.')
    ensures !AllowedFile(filename, allowed)
  {
  }

  /** Why an upload was refused: a message, or the extension set the message lists (in the set's own order). */
  datatype Refusal = Says(message: string) | NotAllowed(extensions: set<string>)

  /**
    The answer of `process_task`: its JSON body and HTTP status, or the server's
    own 500 page for an exception `process_task` does not catch.
  */
  datatype Answer = Accepted(taskId: string, filename: string) | Rejected(status: nat, refusal: Refusal) | Unhandled

  /**
    The checks of `process_task` in their order: no task type, no file part,
    an empty file name, a type without an extension set, a disallowed
    extension. `""` stands for a missing task type; `None` for a missing file part.
  */
  function Validate(taskType: string, upload: Option<string>): Option<Answer> {
    if taskType == "" then Some(Rejected(400, Says("未知的任務類型")))
    else if upload.None? || upload.value == "" then Some(Rejected(400, Says("沒有選擇檔案")))
    else if AllowedExtensions(taskType).None? then Some(Rejected(400, Says("不支援的任務類型: " + taskType)))
    else if !AllowedFile(upload.value, AllowedExtensions(taskType).value) then
      Some(Rejected(400, NotAllowed(AllowedExtensions(taskType).value)))
    else None
  }

  /** An upload passes exactly when it has a known type, a named file, and an extension the type allows. */
  lemma ValidateIff(taskType: string, upload: Option<string>)
    ensures Validate(taskType, upload).None? <==>
      && AllowedExtensions(taskType).Some? && upload.Some? && upload.value != []
      && AllowedFile(upload.value, AllowedExtensions(taskType).value)
    ensures Validate(taskType, upload).Some? ==> Validate(taskType, upload).value.Rejected? && Validate(taskType, upload).value.status == 400
  {
  }

  /** Exactly the six task types have an extension set, and every set is non-empty. */
  lemma KnownTypes(taskType: string)
    ensures AllowedExtensions(taskType).Some? <==>
      taskType in {"pdf_to_ppt", "full_report", "ocr", "summarize", "file_split", "text_to_ppt"}
    ensures AllowedExtensions(taskType).Some? ==> AllowedExtensions(taskType).value != {}
    ensures AllowedExtensions(taskType).Some? <==> Workflow(taskType, "", Outcomes(
      StepRun([], true), StepRun([], true), Ok(""), Fails(""), None, StepRun([], true), true, None, Escaped([], ""))).Some?
  {
  }

  // ---------------------------------------------------------------- the state

  /** One record of `central_task_queue`; `""` stands for a missing or empty field. */
  datatype TaskInfo = TaskInfo(taskId: string, taskType: string, originalBase: string, uploadedPath: string, taskFolder: string)

  /** A task's progress queue: the events put and not yet taken by a stream. */
  class Channel {
    var pending: seq<Event>

    constructor ()
      ensures pending == []
    {
      pending := [];
    }

    method Put(e: Event)
      modifies this
      ensures pending == old(pending) + [e]
    {
      pending := pending + [e];
    }

    method PutAll(es: seq<Event>)
      modifies this
      ensures pending == old(pending) + es
    {
      pending := pending + es;
    }

    /** `q.get()` of an item that is there. */
    method Take() returns (e: Event)
      requires pending != []
      modifies this
      ensures e == old(pending)[0] && pending == old(pending)[1..]
    {
      e := pending[0];
      pending := pending[1..];
    }
  }

  /** The per-task folders under the server's `outputs` directory. */
  class ScratchArea {
    var folders: set<string>

    constructor ()
      ensures folders == {}
    {
      folders := {};
    }

    /** `os.makedirs(folder, exist_ok=True)`. */
    method Make(folder: string)
      modifies this
      ensures folders == old(folders) + {folder}
    {
      folders := folders + {folder};
    }

    /** `shutil.rmtree(folder, ignore_errors=True)` after `os.path.exists`. */
    method Remove(folder: string)
      modifies this
      ensures folders == old(folders) - {folder}
    {
      folders := folders - {folder};
    }
  }

  // ---------------------------------------------------------------- the unfinished-task counter

  /**
    `Queue.task_done()` on the counter of unfinished tasks: one less, or `None`
    for the `ValueError` it raises when it is called more often than tasks were put.
  */
  function TaskDone(unfinished: int): (r: Option<int>)
    ensures r.Some? <==> unfinished >= 1
    ensures r.Some? ==> r.value == unfinished - 1
  {
    if unfinished - 1 < 0 then None else Some(unfinished - 1)
  }

  /** An invalid record as the worker is written: `task_done` before `continue`, and again in `finally`. */
  function InvalidRecordAsWritten(unfinished: int): Option<int> {
    match TaskDone(unfinished)
    case None => None
    case Some(u) => TaskDone(u)
  }

  /** An invalid record with `task_done` called once, as every other record. */
  function InvalidRecord(unfinished: int): Option<int> {
    TaskDone(unfinished)
  }

  /**
    As written, an invalid record taken from a queue of `n` records (counter `n`)
    either raises `ValueError` out of the worker's loop, when it was the only one,
    or leaves the counter one below the `n - 1` records still queued.
  */
  lemma InvalidRecordAsWrittenMiscounts(n: nat)
    requires n >= 1
    ensures n == 1 ==> InvalidRecordAsWritten(n).None?
    ensures n >= 2 ==> InvalidRecordAsWritten(n) == Some(n - 2)
    ensures InvalidRecordAsWritten(n) != Some(n - 1)
  {
  }

  /** With one `task_done`, the counter again equals the number of queued records. */
  lemma InvalidRecordKeepsCount(n: nat)
    requires n >= 1
    ensures InvalidRecord(n) == Some(n - 1)
  {
  }

  /** The counter after one record as the worker is written, `None` when a `task_done` raises out of the loop. */
  function AfterRecord(unfinished: int, runnable: bool): Option<int> {
    if runnable then TaskDone(unfinished) else InvalidRecordAsWritten(unfinished)
  }

  /**
    The counter after the worker, as written, has taken records of the given
    runnability in turn; `None` once a `task_done` has ended the worker thread.
  */
  function DrainAsWritten(unfinished: int, runnable: seq<bool>): Option<int> {
    if runnable == [] then Some(unfinished)
    else match AfterRecord(unfinished, runnable[0])
      case None => None
      case Some(u) => DrainAsWritten(u, runnable[1..])
  }

  /** The same with `task_done` called once per record. */
  function Drain(unfinished: int, runnable: seq<bool>): Option<int> {
    if runnable == [] then Some(unfinished)
    else match (if runnable[0] then TaskDone(unfinished) else InvalidRecord(unfinished))
      case None => None
      case Some(u) => Drain(u, runnable[1..])
  }

  /** A counter that has fallen behind the queue ends the worker before the queue is empty. */
  lemma {:induction false} LaggingCounterStops(u: int, runnable: seq<bool>)
    requires 0 <= u < |runnable|
    ensures DrainAsWritten(u, runnable).None?
  {
    if u >= 1 {
      var rest := runnable[1..];
      if runnable[0] {
        LaggingCounterStops(u - 1, rest);
      } else if u >= 2 {
        LaggingCounterStops(u - 2, rest);
      }
    }
  }

  /**
    As written, one unrunnable record among those queued ends the worker thread
    before it has finished them, even when the counter started right.
  */
  lemma {:induction false} InvalidRecordStopsWorker(runnable: seq<bool>, i: nat)
    requires i < |runnable| && !runnable[i]
    ensures DrainAsWritten(|runnable|, runnable).None?
  {
    var rest := runnable[1..];
    if !runnable[0] {
      if |runnable| >= 2 {
        LaggingCounterStops(|runnable| - 2, rest);
      }
    } else {
      InvalidRecordStopsWorker(rest, i - 1);
    }
  }

  /** Runnable records alone leave the counter at zero once the queue is empty. */
  lemma {:induction false} RunnableRecordsDrain(runnable: seq<bool>)
    requires forall i :: 0 <= i < |runnable| ==> runnable[i]
    ensures DrainAsWritten(|runnable|, runnable) == Some(0)
  {
    if runnable != [] {
      RunnableRecordsDrain(runnable[1..]);
    }
  }

  /** With one `task_done` per record, any mix of records leaves the counter at zero and the worker running. */
  lemma {:induction false} CorrectedDrains(runnable: seq<bool>)
    ensures Drain(|runnable|, runnable) == Some(0)
  {
    if runnable != [] {
      CorrectedDrains(runnable[1..]);
    }
  }

  // ---------------------------------------------------------------- dispatch

  /** The worker's outer handler: the exception's text in an `error` event. */
  function InternalError(message: string): Event {
    Error("處理任務時發生內部錯誤: " + message)
  }

  /** The text of the `ValueError` of a `task_done` called too often. */
  const TooManyTaskDone: string := "task_done() called too many times"

  /** `if not task_id or not task_type or not progress_queue`: whether the worker runs the record at all. */
  predicate Runnable(info: TaskInfo, registry: map<string, Channel>) {
    info.taskId != "" && info.taskType != "" && info.taskId in registry
  }

  /**
    The events the worker puts on a runnable task's channel, given the run of the
    task's workflow (`None` for a type without one): the outer handler's error for
    a missing API key, the workflow's events for the six task types, one error for
    any other type.
  */
  function Dispatch(info: TaskInfo, apiKey: Option<string>, run: Option<WorkflowRun>): seq<Event> {
    if apiKey.None? then [InternalError("任務 " + info.taskId + " 缺少 GEMINI_API_KEY")]
    else match run
      case Some(r) => r.events
      case None => [Error("未知的任務類型: " + info.taskType)]
  }

  /**
    A task whose workflow keeps the terminal-event protocol (as every workflow
    does, by `WorkflowProtocol`) puts events that end with a terminal one, so a
    stream attached to its channel stops; a known type puts its workflow's
    events, any other type and a missing key one `error` and nothing else.
  */
  lemma DispatchEndsTerminal(info: TaskInfo, apiKey: Option<string>, run: Option<WorkflowRun>)
    requires run.Some? ==> Protocol(run.value)
    ensures var events := Dispatch(info, apiKey, run);
      events != [] && IsTerminal(events[|events| - 1])
    ensures apiKey.None? || run.None? ==> |Dispatch(info, apiKey, run)| == 1 && Dispatch(info, apiKey, run)[0].Error?
    ensures apiKey.Some? && run.Some? ==> Dispatch(info, apiKey, run) == run.value.events
    ensures apiKey.Some? && run.Some? && run.value.success ==> CountTerminal(Dispatch(info, apiKey, run)) == 1
  {
  }

  // ---------------------------------------------------------------- the server

  /** The SSE frames of `/stream/<id>`: a `data:` frame carrying an event, or a keep-alive comment. */
  datatype Frame = Data(event: Event) | KeepAlive

  /** What one `q.get(timeout=60)` does: times out, or receives an item (if one is there). */
  datatype Poll = Timeout | Receive

  /** The stream's response: a 400 for a malformed id, or the frames sent before the stream ended. */
  datatype StreamAnswer = InvalidTaskId | Frames(frames: seq<Frame>)

  const GoneMessage: string := "任務已完成或不存在。"

  /**
    The frames a stream sends for the pending events and the polls until the
    client leaves: a timeout, or a receive with nothing pending, sends a
    keep-alive; a received event is forwarded, and a terminal one ends the stream.
  */
  function Forward(pending: seq<Event>, polls: seq<Poll>): seq<Frame>
    decreases |polls|
  {
    if polls == [] then []
    else if polls[0] == Timeout || pending == [] then [KeepAlive] + Forward(pending, polls[1..])
    else if IsTerminal(pending[0]) then [Data(pending[0])]
    else [Data(pending[0])] + Forward(pending[1..], polls[1..])
  }

  /** The events inside a list of frames, in order. */
  function Delivered(frames: seq<Frame>): seq<Event> {
    if frames == [] then []
    else (if frames[0].Data? then [frames[0].event] else []) + Delivered(frames[1..])
  }

  class Server {
    /** `app.config['OUTPUT_FOLDER']`. */
    const outputRoot: string
    /** `app.config['GEMINI_API_KEY']`; `None` also for an empty key. */
    var apiKey: Option<string>
    /** `central_task_queue`: the records put and not yet taken. */
    var queue: seq<TaskInfo>
    /** The queue's count of unfinished tasks (`put` adds one, `task_done` removes one). */
    var unfinished: int
    /** The worker thread has ended: a `task_done` raised out of its loop. */
    var stopped: bool
    /** `task_progress_queues`. */
    var registry: map<string, Channel>
    const scratch: ScratchArea

    /** Between iterations of the worker, every unfinished task is a queued one. */
    ghost predicate Valid()
      reads this
    {
      0 <= unfinished <= |queue|
    }

    /** The counter is exact: every queued record is unfinished. */
    ghost predicate Counted()
      reads this
    {
      unfinished == |queue|
    }

    /**
      Every queued record has an id, a type and a registered channel, and no two
      share an id: the records `process_task` makes, when `uuid4` does not repeat.
    */
    ghost predicate QueuedRunnable()
      reads this
    {
      && (forall i :: 0 <= i < |queue| ==> Runnable(queue[i], registry))
      && (forall i, j :: 0 <= i < j < |queue| ==> queue[i].taskId != queue[j].taskId)
    }

    constructor (outputRoot: string, apiKey: Option<string>)
      ensures this.outputRoot == outputRoot && this.apiKey == apiKey
      ensures queue == [] && unfinished == 0 && !stopped && registry == map[] && fresh(scratch) && scratch.folders == {}
      ensures Valid() && Counted() && QueuedRunnable()
    {
      this.outputRoot := outputRoot;
      this.apiKey := apiKey;
      queue := [];
      unfinished := 0;
      stopped := false;
      registry := map[];
      scratch := new ScratchArea();
    }

    /**
      `process_task`. `upload` is the file part's name (`None` without a file
      part), `safeName` what `secure_filename` makes of it, `newId` the fresh
      `uuid4`, `mkdirError` an exception of `os.makedirs` (outside the `try`,
      so the server answers with its own 500 page) and `saveError` one of
      `file.save`. An accepted task has its folder, its registered channel and
      its queued record.
    */
    method ProcessTask(taskType: string, upload: Option<string>, safeName: string, newId: string,
                       mkdirError: Option<string>, saveError: Option<string>)
      returns (answer: Answer)
      requires Valid()
      modifies this, scratch
      ensures Valid() && apiKey == old(apiKey) && stopped == old(stopped)
      ensures old(Counted()) ==> Counted()
      ensures unfinished == old(unfinished) + (if answer.Accepted? then 1 else 0)
      ensures old(QueuedRunnable()) && newId != "" && (forall i :: 0 <= i < |old(queue)| ==> old(queue)[i].taskId != newId) ==>
        QueuedRunnable()
      ensures Validate(taskType, upload).Some? ==>
        answer == Validate(taskType, upload).value &&
        queue == old(queue) && registry == old(registry) && scratch.folders == old(scratch.folders)
      ensures Validate(taskType, upload).None? && mkdirError.Some? ==>
        answer == Unhandled &&
        queue == old(queue) && registry == old(registry) && scratch.folders == old(scratch.folders)
      ensures Validate(taskType, upload).None? && mkdirError.None? && saveError.Some? ==>
        answer == Rejected(500, Says("儲存上傳檔案失敗: " + saveError.value)) &&
        queue == old(queue) && registry == old(registry) && scratch.folders == old(scratch.folders) - {Join(outputRoot, newId)}
      ensures Validate(taskType, upload).None? && mkdirError.None? && saveError.None? ==>
        var folder := Join(outputRoot, newId);
        && answer == Accepted(newId, upload.value)
        && queue == old(queue) + [TaskInfo(newId, taskType, SplitExt(upload.value).0, Join(folder, safeName), folder)]
        && newId in registry && fresh(registry[newId]) && registry[newId].pending == []
        && registry == old(registry)[newId := registry[newId]]
        && scratch.folders == old(scratch.folders) + {folder}
    {
      var refused := Validate(taskType, upload);
      if refused.Some? {
        return refused.value;
      }
      var filename := upload.value;
      var originalBase := SplitExt(filename).0;
      var folder := Join(outputRoot, newId);
      if mkdirError.Some? {
        return Unhandled;
      }
      scratch.Make(folder);
      var uploadedPath := Join(folder, safeName);
      if saveError.Some? {
        scratch.Remove(folder);
        return Rejected(500, Says("儲存上傳檔案失敗: " + saveError.value));
      }
      Enqueue(TaskInfo(newId, taskType, originalBase, uploadedPath, folder));
      answer := Accepted(newId, filename);
    }

    /** The end of `process_task`: a fresh channel registered under the task's id, and its record queued. */
    method Enqueue(info: TaskInfo)
      requires Valid()
      modifies this
      ensures Valid() && apiKey == old(apiKey) && stopped == old(stopped)
      ensures unfinished == old(unfinished) + 1
      ensures queue == old(queue) + [info]
      ensures info.taskId in registry && fresh(registry[info.taskId]) && registry[info.taskId].pending == []
      ensures registry == old(registry)[info.taskId := registry[info.taskId]]
      ensures old(QueuedRunnable()) && info.taskId != "" && info.taskType != "" &&
              (forall i :: 0 <= i < |old(queue)| ==> old(queue)[i].taskId != info.taskId) ==>
                QueuedRunnable()
    {
      var channel := new Channel();
      ghost var before := queue;
      registry := registry[info.taskId := channel];
      queue := queue + [info];
      unfinished := unfinished + 1;
      if old(QueuedRunnable()) && info.taskId != "" && info.taskType != "" &&
         (forall i :: 0 <= i < |before| ==> before[i].taskId != info.taskId) {
        forall i | 0 <= i < |queue|
          ensures Runnable(queue[i], registry)
        {
          if i < |before| {
            assert queue[i] == before[i] && Runnable(before[i], old(registry));
          }
        }
      }
    }

    /**
      One iteration of `task_worker`, as written: take the oldest record and run
      it when it is runnable; an unrunnable record calls `task_done` before its
      `continue`, and the `finally` calls it again for every record. A
      `task_done` that raises in the `finally` ends the worker thread before the
      channel is forgotten; one that raises in the `try` is first reported on
      the task's channel by the outer handler. No other channel changes.
    */
    method WorkerStep(o: Outcomes)
      requires Valid() && !stopped && queue != []
      modifies this, registry.Values, scratch
      ensures Valid() && apiKey == old(apiKey)
      ensures queue == old(queue)[1..]
      ensures var next := AfterRecord(old(unfinished), Runnable(old(queue)[0], old(registry)));
        && stopped == next.None?
        && unfinished == (if next.Some? then next.value else 0)
      ensures var info := old(queue)[0];
        registry == if stopped || info.taskId == "" then old(registry) else old(registry) - {info.taskId}
      ensures old(Counted() && QueuedRunnable()) ==>
        Runnable(old(queue)[0], old(registry)) && !stopped && Counted() && QueuedRunnable()
      ensures var info := old(queue)[0];
        var run := Workflow(info.taskType, info.uploadedPath, o);
        Runnable(info, old(registry)) ==>
          var ch := old(registry)[info.taskId];
          && ch.pending == old(ch.pending) + Dispatch(info, apiKey, run)
          && scratch.folders == old(scratch.folders) - (if apiKey.Some? && run.Some? then {info.taskFolder} else {})
      ensures var info := old(queue)[0];
        !Runnable(info, old(registry)) && info.taskId in old(registry) ==>
          var ch := old(registry)[info.taskId];
          ch.pending == old(ch.pending) + (if old(unfinished) == 0 then [InternalError(TooManyTaskDone)] else [])
      ensures var info := old(queue)[0];
        forall c :: c in old(registry).Values && !(info.taskId in old(registry) && c == old(registry)[info.taskId]) ==>
          c.pending == old(c.pending)
      ensures !Runnable(old(queue)[0], old(registry)) ==> scratch.folders == old(scratch.folders)
    {
      var info := queue[0];
      queue := queue[1..];
      var id := info.taskId;
      HandleRecord(info, o);
      var last := TaskDone(unfinished);
      if last.None? {
        stopped := true;
        return;
      }
      unfinished := last.value;
      if id != "" {
        registry := registry - {id};
      }
    }

    /**
      The `try` of `task_worker` for one record: a runnable record runs; an
      invalid one calls `task_done` before its `continue`, and when that raises
      the `except` reports it on the task's channel, if it has one.
    */
    method HandleRecord(info: TaskInfo, o: Outcomes)
      modifies this`unfinished, registry.Values, scratch
      ensures unfinished ==
        if Runnable(info, registry) || TaskDone(old(unfinished)).None? then old(unfinished) else old(unfinished) - 1
      ensures var run := Workflow(info.taskType, info.uploadedPath, o);
        Runnable(info, registry) ==>
          var ch := registry[info.taskId];
          && ch.pending == old(ch.pending) + Dispatch(info, apiKey, run)
          && scratch.folders == old(scratch.folders) - (if apiKey.Some? && run.Some? then {info.taskFolder} else {})
      ensures !Runnable(info, registry) && info.taskId in registry ==>
        var ch := registry[info.taskId];
        ch.pending == old(ch.pending) + (if TaskDone(old(unfinished)).None? then [InternalError(TooManyTaskDone)] else [])
      ensures forall c :: c in registry.Values && !(info.taskId in registry && c == registry[info.taskId]) ==>
        c.pending == old(c.pending)
      ensures !Runnable(info, registry) ==> scratch.folders == old(scratch.folders)
    {
      var id := info.taskId;
      if Runnable(info, registry) {
        RunRecord(registry[id], info, o);
      } else {
        var early := TaskDone(unfinished);
        if early.None? {
          if id in registry {
            registry[id].Put(InternalError(TooManyTaskDone));
          }
        } else {
          unfinished := early.value;
        }
      }
    }

    /** The body of `task_worker`'s `try` for a runnable record: the missing-key check, then the dispatch on the task type. */
    method RunRecord(ch: Channel, info: TaskInfo, o: Outcomes)
      modifies ch, scratch
      ensures var run := Workflow(info.taskType, info.uploadedPath, o);
        && ch.pending == old(ch.pending) + Dispatch(info, apiKey, run)
        && scratch.folders == old(scratch.folders) - (if apiKey.Some? && run.Some? then {info.taskFolder} else {})
    {
      var id, kind := info.taskId, info.taskType;
      if apiKey.None? {
        ch.Put(InternalError("任務 " + id + " 缺少 GEMINI_API_KEY"));
      } else if kind == "pdf_to_ppt" {
        RunPdfToPptWorkflow(ch, info, o);
      } else if kind == "full_report" {
        RunFullReportWorkflow(ch, info, o);
      } else if kind == "ocr" {
        RunOcrWorkflow(ch, info, o);
      } else if kind == "summarize" {
        RunSummarizeWorkflow(ch, info, o);
      } else if kind == "file_split" {
        RunSplitWorkflow(ch, info, o);
      } else if kind == "text_to_ppt" {
        RunTextToPptWorkflow(ch, info, o);
      } else {
        ch.Put(Error("未知的任務類型: " + kind));
      }
    }

    /**
      `run_text_to_ppt_workflow`. Each step runs only while nothing has raised
      (`failure` is `None`); the ghost flow `f` follows the same steps in the
      specification.
    */
    method RunTextToPptWorkflow(ch: Channel, info: TaskInfo, o: Outcomes)
      modifies ch, scratch
      ensures ch.pending == old(ch.pending) + TextToPpt(o).events
      ensures scratch.folders == old(scratch.folders) - {info.taskFolder}
    {
      ghost var base := ch.pending;
      var failure: Option<string> := None;
      ghost var f := PutStep(ch, failure, Status(Some(1), "讀取檔案內容...", Some(10)), base, Start);
      failure, f := ReadStep(failure, o.read, "上傳的檔案內容為空或無法讀取。", f);
      f := PutStep(ch, failure, Status(Some(2), "生成摘要...", Some(25)), base, f);
      failure, f := CallStep(ch, failure, o.summary, "步驟 2 (生成摘要) 失敗", base, f);
      f := PutStep(ch, failure, Status(Some(3), "生成簡報...", Some(80)), base, f);
      failure, f := CheckStep(failure, !o.ppt, "步驟 3 (轉換為簡報) 失敗", f);
      assert f == TextToPptSteps(o);
      Conclude(ch, info, failure, o.finalCopy, "儲存最終簡報到桌面失敗", Named("簡報 ", " 及摘要檔案已分類儲存。"), base, f);
    }

    /** `run_full_report_workflow`. */
    method RunFullReportWorkflow(ch: Channel, info: TaskInfo, o: Outcomes)
      modifies ch, scratch
      ensures ch.pending == old(ch.pending) + FullReport(o).events
      ensures scratch.folders == old(scratch.folders) - {info.taskFolder}
    {
      ghost var base := ch.pending;
      var failure: Option<string> := None;
      ghost var f := PutStep(ch, failure, Status(Some(1), "掃描原文 (OCR)...", Some(5)), base, Start);
      failure, f := CallStep(ch, failure, o.ocr, "步驟 1 (掃描原文) 失敗", base, f);
      failure, f := ReadStep(failure, o.read, "掃描後的原文內容為空", f);
      f := PutStep(ch, failure, Status(Some(2), "翻譯原文...", Some(30)), base, f);
      failure, f := TranslateStep(failure, o.translation, o.translationSave, f);
      f := PutStep(ch, failure, Status(Some(3), "生成摘要...", Some(55)), base, f);
      failure, f := CallStep(ch, failure, o.summary, "步驟 3 (生成摘要) 失敗", base, f);
      f := PutStep(ch, failure, Status(Some(4), "生成簡報...", Some(80)), base, f);
      failure, f := CheckStep(failure, !o.ppt, "步驟 4 (轉換為簡報) 失敗", f);
      assert f == FullReportSteps(o);
      Conclude(ch, info, failure, o.finalCopy, "儲存最終簡報到桌面失敗", Plain("完整報告處理完成，4類檔案已分類儲存。"), base, f);
    }

    /** `run_full_workflow`. */
    method RunPdfToPptWorkflow(ch: Channel, info: TaskInfo, o: Outcomes)
      modifies ch, scratch
      ensures ch.pending == old(ch.pending) + PdfToPpt(o).events
      ensures scratch.folders == old(scratch.folders) - {info.taskFolder}
    {
      ghost var base := ch.pending;
      var failure: Option<string> := None;
      ghost var f := PutStep(ch, failure, Status(Some(1), "OCR與翻譯...", Some(5)), base, Start);
      failure, f := CallStep(ch, failure, o.ocr, "步驟 1 (OCR/翻譯) 失敗", base, f);
      f := PutStep(ch, failure, Status(Some(2), "生成摘要...", Some(40)), base, f);
      failure, f := ReadStep(failure, o.read, "翻譯檔案內容為空", f);
      failure, f := CallStep(ch, failure, o.summary, "步驟 2 (生成摘要) 失敗", base, f);
      f := PutStep(ch, failure, Status(Some(3), "生成簡報...", Some(80)), base, f);
      failure, f := CheckStep(failure, !o.ppt, "步驟 3 (轉換為簡報) 失敗", f);
      assert f == PdfToPptSteps(o);
      Conclude(ch, info, failure, o.finalCopy, "儲存最終簡報到桌面失敗", Named("快速簡報 ", " 及過程檔案已分類儲存。"), base, f);
    }

    /** `run_ocr_workflow`: the PDF transform for a `.pdf` upload, the image transform otherwise. */
    method RunOcrWorkflow(ch: Channel, info: TaskInfo, o: Outcomes)
      modifies ch, scratch
      ensures ch.pending == old(ch.pending) + OcrWorkflow(info.uploadedPath, o).events
      ensures scratch.folders == old(scratch.folders) - {info.taskFolder}
    {
      ghost var base := ch.pending;
      var failure: Option<string> := None;
      ghost var f := PutStep(ch, failure, Status(Some(1), "OCR 與翻譯處理中...", Some(5)), base, Start);
      var step := if Lower(SplitExt(info.uploadedPath).1) == ".pdf" then o.ocr else o.image;
      failure, f := CallStep(ch, failure, step, "OCR 與翻譯步驟失敗", base, f);
      assert f == OcrWorkflowSteps(info.uploadedPath, o);
      Conclude(ch, info, failure, o.finalCopy, "儲存檔案到桌面失敗", Named("翻譯檔案 ", " 已儲存。"), base, f);
    }

    /** `run_summarize_workflow`. */
    method RunSummarizeWorkflow(ch: Channel, info: TaskInfo, o: Outcomes)
      modifies ch, scratch
      ensures ch.pending == old(ch.pending) + SummarizeWorkflow(o).events
      ensures scratch.folders == old(scratch.folders) - {info.taskFolder}
    {
      ghost var base := ch.pending;
      var failure: Option<string>;
      ghost var f;
      failure, f := CallStep(ch, None, o.ocr, "步驟 1 (OCR) 失敗", base, Start);
      failure, f := ReadStep(failure, o.read, "OCR 結果為空", f);
      failure, f := CallStep(ch, failure, o.summary, "步驟 2 (摘要) 失敗", base, f);
      assert f == SummarizeWorkflowSteps(o);
      Conclude(ch, info, failure, o.finalCopy, "儲存檔案到桌面失敗", Named("摘要檔案 ", " 已儲存。"), base, f);
    }

    /** `progress_queue.put(e)`, reached only while nothing has raised. */
    static method PutStep(ch: Channel, failure: Option<string>, e: Event, ghost base: seq<Event>, ghost f: Flow) returns (ghost g: Flow)
      requires ch.pending == base + f.events && failure == f.raised
      modifies ch
      ensures g == Put(f, e) && ch.pending == base + g.events && failure == g.raised
    {
      g := Put(f, e);
      if failure.None? {
        ch.Put(e);
      }
    }

    /** A transform's call while nothing has raised: its events, then its failure message if it returned `False`. */
    static method CallStep(ch: Channel, failure: Option<string>, run: StepRun, message: string, ghost base: seq<Event>, ghost f: Flow)
      returns (after: Option<string>, ghost g: Flow)
      requires ch.pending == base + f.events && failure == f.raised
      modifies ch
      ensures g == Call(f, run, message) && ch.pending == base + g.events && after == g.raised
    {
      g := Call(f, run, message);
      after := failure;
      if failure.None? {
        ch.PutAll(run.events);
        if !run.ok {
          after := Some(message);
        }
      }
    }

    /** `read_text_from_file` and the blank-text check, while nothing has raised. */
    static method ReadStep(failure: Option<string>, read: Result<string>, blank: string, ghost f: Flow)
      returns (after: Option<string>, ghost g: Flow)
      requires failure == f.raised
      ensures g == ReadText(f, read, blank) && g.events == f.events && after == g.raised
    {
      g := ReadText(f, read, blank);
      after := failure;
      if failure.None? {
        if read.Raised? {
          after := Some(read.message);
        } else if IsBlank(read.value) {
          after := Some(blank);
        }
      }
    }

    /** A check that raises `message` when `fails`, while nothing has raised. */
    static method CheckStep(failure: Option<string>, fails: bool, message: string, ghost f: Flow)
      returns (after: Option<string>, ghost g: Flow)
      requires failure == f.raised
      ensures g == Check(f, fails, message) && g.events == f.events && after == g.raised
    {
      g := Check(f, fails, message);
      after := failure;
      if failure.None? && fails {
        after := Some(message);
      }
    }

    /** The translation request and the save of its reply, while nothing has raised. */
    static method TranslateStep(failure: Option<string>, reply: ModelReply, saveError: Option<string>, ghost f: Flow)
      returns (after: Option<string>, ghost g: Flow)
      requires failure == f.raised
      ensures g == Translate(f, reply, saveError) && g.events == f.events && after == g.raised
    {
      g := Translate(f, reply, saveError);
      after := failure;
      if failure.None? {
        match reply {
          case Fails(m) => after := Some(m);
          case Reply(t, _) =>
            if t == [] {
              after := Some(TranslationMissing);
            } else if saveError.Some? {
              after := saveError;
            }
        }
      }
    }

    /**
      The final desktop copy and the end of a workflow's `try`: `complete` when
      nothing raised and the copy succeeded, otherwise the shared failure ending.
    */
    method Conclude(ch: Channel, info: TaskInfo, failure: Option<string>, finalCopy: Option<Desktop.Placed>,
                    copyFailure: string, text: CompleteText, ghost base: seq<Event>, ghost f: Flow)
      requires ch.pending == base + f.events && failure == f.raised
      modifies ch, scratch
      ensures ch.pending == base + Finish(f, finalCopy, copyFailure, text).events
      ensures scratch.folders == old(scratch.folders) - {info.taskFolder}
    {
      var ending := failure;
      if ending.None? {
        if finalCopy.None? {
          ending := Some(copyFailure);
        } else {
          var placed := finalCopy.value;
          ch.Put(Complete(CompleteMessage(text, placed.name), Some(Dirname(Dirname(placed.path)))));
        }
      }
      EndWorkflow(ch, info, ending);
    }

    /** `run_split_workflow`. */
    method RunSplitWorkflow(ch: Channel, info: TaskInfo, o: Outcomes)
      modifies ch, scratch
      ensures ch.pending == old(ch.pending) + SplitWorkflow(o.split).events
      ensures scratch.folders == old(scratch.folders) - {info.taskFolder}
    {
      var failure: Option<string> := None;
      ch.PutAll(o.split.events);
      match o.split {
        case Escaped(_, m) =>
          failure := Some(m);
        case Returned(count, outputDir, _) =>
          if count > 0 {
            ch.Put(Complete("成功分割成 " + NatToString(count) + " 個檔案。", outputDir));
          } else if count == 0 {
            failure := Some(NoStructureMessage);
          } else {
            failure := Some(UnknownSplitFailure);
          }
      }
      EndWorkflow(ch, info, failure);
    }

    /** The `except` and `finally` shared by the workflows: `error`, the folder's removal, then `done` on failure. */
    method EndWorkflow(ch: Channel, info: TaskInfo, failure: Option<string>)
      modifies ch, scratch
      ensures ch.pending == old(ch.pending) + (if failure.Some? then [Error("處理失敗: " + failure.value), Done] else [])
      ensures scratch.folders == old(scratch.folders) - {info.taskFolder}
    {
      if failure.Some? {
        ch.Put(Error("處理失敗: " + failure.value));
      }
      scratch.Remove(info.taskFolder);
      if failure.Some? {
        ch.Put(Done);
      }
    }

    /**
      `/stream/<task_id>`: a malformed id is refused; an unknown one gets one
      `error` frame; otherwise the channel's events are forwarded in order, one
      per receive, until the first terminal one or until the client leaves.
    */
    method Stream(taskId: string, wellFormed: bool, polls: seq<Poll>) returns (answer: StreamAnswer)
      modifies if taskId in registry then {registry[taskId]} else {}
      ensures !wellFormed ==> answer == InvalidTaskId
      ensures wellFormed && taskId !in registry ==> answer == Frames([Data(Error(GoneMessage))])
      ensures wellFormed && taskId in registry ==>
        var q := registry[taskId];
        && answer == Frames(Forward(old(q.pending), polls))
        && |Delivered(answer.frames)| <= |old(q.pending)|
        && q.pending == old(q.pending)[|Delivered(answer.frames)|..]
    {
      if !wellFormed {
        return InvalidTaskId;
      }
      if taskId !in registry {
        return Frames([Data(Error(GoneMessage))]);
      }
      var q := registry[taskId];
      ghost var start := q.pending;
      var frames: seq<Frame> := [];
      var done := false;
      var i := 0;
      while !done && i < |polls|
        invariant 0 <= i <= |polls|
        invariant |Delivered(frames)| <= |start| && q.pending == start[|Delivered(frames)|..]
        invariant done ==> frames == Forward(start, polls)
        invariant !done ==> frames + Forward(q.pending, polls[i..]) == Forward(start, polls)
        decreases |polls| - i, if done then 0 else 1
      {
        if polls[i] == Timeout || q.pending == [] {
          KeepAliveStep(frames, q.pending, start, polls, i);
          frames := frames + [KeepAlive];
        } else {
          DataStep(frames, q.pending, start, polls, i);
          var e := q.Take();
          frames := frames + [Data(e)];
          if IsTerminal(e) {
            done := true;
          }
        }
        i := i + 1;
      }
      if !done {
        assert polls[i..] == [];
      }
      answer := Frames(frames);
    }
  }

  /** A keep-alive in the stream's loop: the frames still agree with `Forward`, and nothing more is delivered. */
  lemma KeepAliveStep(frames: seq<Frame>, pending: seq<Event>, start: seq<Event>, polls: seq<Poll>, i: nat)
    requires i < |polls| && (polls[i] == Timeout || pending == [])
    requires frames + Forward(pending, polls[i..]) == Forward(start, polls)
    ensures (frames + [KeepAlive]) + Forward(pending, polls[i + 1..]) == Forward(start, polls)
    ensures Delivered(frames + [KeepAlive]) == Delivered(frames)
  {
    ForwardStep(pending, polls[i..]);
    assert polls[i..][1..] == polls[i + 1..];
    DeliveredSnoc(frames, KeepAlive);
  }

  /** A received event in the stream's loop: it is the next one `Forward` sends, and it is delivered. */
  lemma DataStep(frames: seq<Frame>, pending: seq<Event>, start: seq<Event>, polls: seq<Poll>, i: nat)
    requires i < |polls| && polls[i] == Receive && pending != []
    requires frames + Forward(pending, polls[i..]) == Forward(start, polls)
    ensures IsTerminal(pending[0]) ==> frames + [Data(pending[0])] == Forward(start, polls)
    ensures !IsTerminal(pending[0]) ==>
      (frames + [Data(pending[0])]) + Forward(pending[1..], polls[i + 1..]) == Forward(start, polls)
    ensures Delivered(frames + [Data(pending[0])]) == Delivered(frames) + [pending[0]]
  {
    var rest, e := polls[i..], pending[0];
    assert rest[1..] == polls[i + 1..];
    var later := if IsTerminal(e) then [] else Forward(pending[1..], polls[i + 1..]);
    assert Forward(pending, rest) == [Data(e)] + later;
    assert frames + ([Data(e)] + later) == (frames + [Data(e)]) + later;
    if IsTerminal(e) {
      assert (frames + [Data(e)]) + later == frames + [Data(e)];
    }
    DeliveredSnoc(frames, Data(e));
  }

  lemma DeliveredCons(f: Frame, rest: seq<Frame>)
    ensures Delivered([f] + rest) == (if f.Data? then [f.event] else []) + Delivered(rest)
  {
    assert ([f] + rest)[1..] == rest;
  }

  /** A stream forwards a prefix of the channel's events, in order and without gaps. */
  lemma {:induction false} ForwardIsPrefix(pending: seq<Event>, polls: seq<Poll>)
    ensures var d := Delivered(Forward(pending, polls)); |d| <= |pending| && d == pending[..|d|]
    decreases |polls|
  {
    if polls == [] {
      assert Delivered(Forward(pending, polls)) == [];
    } else if polls[0] == Timeout || pending == [] {
      var rest := Forward(pending, polls[1..]);
      assert Forward(pending, polls) == [KeepAlive] + rest;
      ForwardIsPrefix(pending, polls[1..]);
      DeliveredCons(KeepAlive, rest);
    } else if IsTerminal(pending[0]) {
      assert Forward(pending, polls) == [Data(pending[0])];
      DeliveredCons(Data(pending[0]), []);
      assert Delivered(Forward(pending, polls)) == pending[..1];
    } else {
      var rest := Forward(pending[1..], polls[1..]);
      assert Forward(pending, polls) == [Data(pending[0])] + rest;
      ForwardIsPrefix(pending[1..], polls[1..]);
      DeliveredCons(Data(pending[0]), rest);
      PrefixCons(pending[0], pending[1..], Delivered(rest));
      assert [pending[0]] + pending[1..] == pending;
    }
  }

  lemma PrefixCons(x: Event, rest: seq<Event>, d: seq<Event>)
    requires |d| <= |rest| && d == rest[..|d|]
    ensures [x] + d == ([x] + rest)[..|d| + 1]
  {
  }

  /** A stream never forwards an event after a terminal one: only the last forwarded event may be terminal. */
  lemma {:induction false} ForwardStopsAtTerminal(pending: seq<Event>, polls: seq<Poll>)
    ensures var d := Delivered(Forward(pending, polls)); forall k :: 0 <= k < |d| - 1 ==> !IsTerminal(d[k])
    decreases |polls|
  {
    if polls != [] {
      ForwardStep(pending, polls);
      if polls[0] == Timeout || pending == [] {
        ForwardStopsAtTerminal(pending, polls[1..]);
        DeliveredCons(KeepAlive, Forward(pending, polls[1..]));
      } else if IsTerminal(pending[0]) {
        DeliveredCons(Data(pending[0]), []);
      } else {
        var rest := Forward(pending[1..], polls[1..]);
        ForwardStopsAtTerminal(pending[1..], polls[1..]);
        DeliveredCons(Data(pending[0]), rest);
        var d := Delivered(rest);
        var all := [pending[0]] + d;
        forall k | 0 <= k < |all| - 1 ensures !IsTerminal(all[k]) {
          if k > 0 {
            assert all[k] == d[k - 1];
          }
        }
      }
    }
  }

  /**
    A client that keeps receiving, at least once per event up to the first
    terminal one, gets exactly the events up to and including it, and the
    stream ends there.
  */
  lemma {:induction false} ForwardUntilTerminal(pending: seq<Event>, polls: seq<Poll>, k: nat)
    requires k < |pending| && IsTerminal(pending[k]) && forall j :: 0 <= j < k ==> !IsTerminal(pending[j])
    requires |polls| > k && forall i :: 0 <= i < |polls| ==> polls[i] == Receive
    ensures Delivered(Forward(pending, polls)) == pending[..k + 1]
    ensures |Forward(pending, polls)| == k + 1 && Forward(pending, polls)[k] == Data(pending[k])
    decreases k
  {
    if k == 0 {
      DeliveredCons(Data(pending[0]), []);
    } else {
      assert !IsTerminal(pending[0]);
      ForwardUntilTerminal(pending[1..], polls[1..], k - 1);
      var rest := Forward(pending[1..], polls[1..]);
      DeliveredCons(Data(pending[0]), rest);
      assert [pending[0]] + pending[1..][..k] == pending[..k + 1];
    }
  }

  /** A timeout only adds a keep-alive: it forwards nothing and takes nothing from the channel. */
  lemma TimeoutForwardsNothing(pending: seq<Event>, polls: seq<Poll>)
    ensures Delivered(Forward(pending, [Timeout] + polls)) == Delivered(Forward(pending, polls))
  {
    assert ([Timeout] + polls)[1..] == polls;
    DeliveredCons(KeepAlive, Forward(pending, polls));
  }

  /**
    A client that keeps receiving on a channel whose events end with a terminal
    one sees a terminal event last; when that is the only terminal event, it
    sees every event.
  */
  lemma StreamReachesTerminal(events: seq<Event>, polls: seq<Poll>)
    requires events != [] && IsTerminal(events[|events| - 1])
    requires |polls| >= |events| && forall i :: 0 <= i < |polls| ==> polls[i] == Receive
    ensures var frames := Forward(events, polls);
      frames != [] && frames[|frames| - 1].Data? && IsTerminal(frames[|frames| - 1].event)
    ensures CountTerminal(events) == 1 ==> Delivered(Forward(events, polls)) == events
  {
    var n := |events|;
    assert events == events[..n - 1] + [events[n - 1]];
    CountTerminalSnoc(events[..n - 1], events[n - 1]);
    var k := FirstTerminalAt(events);
    ForwardUntilTerminal(events, polls, k);
    if CountTerminal(events) == 1 {
      CountedNone(events[..n - 1]);
      assert k == n - 1;
      assert events[..k + 1] == events;
    }
  }

  /**
    A client that keeps receiving sees a runnable task through to a terminal
    event, so its stream closes; after a successful workflow it has seen every
    event the workflow put.
  */
  lemma StreamEndsTask(info: TaskInfo, apiKey: Option<string>, o: Outcomes, polls: seq<Poll>)
    requires Reported(o)
    requires o.split.Returned? && o.split.count > 0 ==> o.split.outputDir.Some?
    requires |polls| >= |Dispatch(info, apiKey, Workflow(info.taskType, info.uploadedPath, o))|
    requires forall i :: 0 <= i < |polls| ==> polls[i] == Receive
    ensures var run := Workflow(info.taskType, info.uploadedPath, o);
      var frames := Forward(Dispatch(info, apiKey, run), polls);
      frames != [] && frames[|frames| - 1].Data? && IsTerminal(frames[|frames| - 1].event)
    ensures var run := Workflow(info.taskType, info.uploadedPath, o);
      apiKey.Some? && run.Some? && run.value.success ==>
        Delivered(Forward(Dispatch(info, apiKey, run), polls)) == Dispatch(info, apiKey, run)
  {
    WorkflowProtocol(info.taskType, info.uploadedPath, o);
    StreamEndsRun(info, apiKey, Workflow(info.taskType, info.uploadedPath, o), polls);
  }

  /** The stream of a dispatched run that keeps the protocol reaches its terminal event. */
  lemma StreamEndsRun(info: TaskInfo, apiKey: Option<string>, run: Option<WorkflowRun>, polls: seq<Poll>)
    requires run.Some? ==> Protocol(run.value)
    requires |polls| >= |Dispatch(info, apiKey, run)| && forall i :: 0 <= i < |polls| ==> polls[i] == Receive
    ensures var frames := Forward(Dispatch(info, apiKey, run), polls);
      frames != [] && frames[|frames| - 1].Data? && IsTerminal(frames[|frames| - 1].event)
    ensures apiKey.Some? && run.Some? && run.value.success ==>
      Delivered(Forward(Dispatch(info, apiKey, run), polls)) == Dispatch(info, apiKey, run)
  {
    DispatchEndsTerminal(info, apiKey, run);
    StreamReachesTerminal(Dispatch(info, apiKey, run), polls);
  }

  lemma ForwardStep(pending: seq<Event>, polls: seq<Poll>)
    requires polls != []
    ensures polls[0] == Timeout || pending == [] ==> Forward(pending, polls) == [KeepAlive] + Forward(pending, polls[1..])
    ensures polls[0] == Receive && pending != [] && IsTerminal(pending[0]) ==> Forward(pending, polls) == [Data(pending[0])]
    ensures polls[0] == Receive && pending != [] && !IsTerminal(pending[0]) ==>
      Forward(pending, polls) == [Data(pending[0])] + Forward(pending[1..], polls[1..])
  {
  }

  lemma {:induction false} DeliveredSnoc(frames: seq<Frame>, f: Frame)
    ensures Delivered(frames + [f]) == Delivered(frames) + (if f.Data? then [f.event] else [])
    decreases |frames|
  {
    if frames == [] {
      assert [] + [f] == [f];
      DeliveredCons(f, []);
    } else {
      var head, tail := frames[0], frames[1..];
      assert frames == [head] + tail;
      assert frames + [f] == [head] + (tail + [f]);
      DeliveredCons(head, tail + [f]);
      DeliveredSnoc(tail, f);
      DeliveredCons(head, tail);
    }
  }
}
