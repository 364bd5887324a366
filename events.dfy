/**
  The progress events a task's channel carries (the JSON objects the workers
  put on a task's progress queue), and the shapes in which the external model's
  replies and the transforms' runs reach the rest of the model.
*/
module Events {
  import opened Common

  /** One JSON progress message, one variant per `type`. */
  datatype Event =
    | Status(step: Option<nat>, status: string, percent: Option<nat>)
    | Progress(current: nat, total: nat, status: string)
    | Complete(message: string, folder: Option<string>)
    | Error(message: string)
    | Done

  /** The event types after which the event stream stops (`done`, `error`, `complete`). */
  predicate IsTerminal(e: Event) {
    e.Complete? || e.Error? || e.Done?
  }

  /**
    What a `generate_content` call gives back: a reply whose `text` may be empty
    (with the optional `prompt_feedback.block_reason`), or an exception.
  */
  datatype ModelReply = Reply(text: string, feedback: Option<string>) | Fails(message: string)

  /** The `" (Block Reason: …)"` suffix of the failure messages. */
  function BlockReason(feedback: Option<string>): string {
    match feedback
    case None => ""
    case Some(r) => " (Block Reason: " + r + ")"
  }

  /** One call of an external transform: the events it put on the channel and the boolean it returned. */
  datatype StepRun = StepRun(events: seq<Event>, ok: bool)

  function CountTerminal(s: seq<Event>): (n: nat)
    ensures n <= |s|
  {
    Count(s, IsTerminal)
  }

  /** Terminal events of a concatenation add up. */
  lemma {:induction false} CountTerminalAppend(a: seq<Event>, b: seq<Event>)
    ensures CountTerminal(a + b) == CountTerminal(a) + CountTerminal(b)
    decreases |b|
  {
    if b == [] {
      assert a + b == a;
    } else {
      var c := a + b;
      assert c[..|c| - 1] == a + b[..|b| - 1];
      assert c[|c| - 1] == b[|b| - 1];
      CountTerminalAppend(a, b[..|b| - 1]);
    }
  }

  /**
    What every transform promises about the events it puts: a successful run
    puts no terminal event, a failed one ends with its only `error` event.
  */
  predicate Reports(run: StepRun) {
    && (run.ok ==> CountTerminal(run.events) == 0)
    && (!run.ok ==> run.events != [] && run.events[|run.events| - 1].Error? && CountTerminal(run.events) == 1)
  }

  /** A sequence with no terminal event counts none. */
  lemma {:induction false} NoTerminal(s: seq<Event>)
    requires forall k :: 0 <= k < |s| ==> !IsTerminal(s[k])
    ensures CountTerminal(s) == 0
  {
    if s != [] {
      NoTerminal(s[..|s| - 1]);
    }
  }

  lemma CountTerminalSnoc(s: seq<Event>, e: Event)
    ensures CountTerminal(s + [e]) == CountTerminal(s) + (if IsTerminal(e) then 1 else 0)
  {
    assert (s + [e])[..|s|] == s;
  }

  /** Status events followed by one `error`: exactly one terminal event. */
  lemma StatusesThenError(body: seq<Event>, e: Event)
    requires forall k :: 0 <= k < |body| ==> body[k].Status?
    requires e.Error?
    ensures CountTerminal(body + [e]) == 1
  {
    NoTerminal(body);
    CountTerminalSnoc(body, e);
  }

  /** A failed run that put status events and then its `error` keeps the promise. */
  lemma FailedStepReports(body: seq<Event>, e: Event)
    requires forall k :: 0 <= k < |body| ==> body[k].Status?
    requires e.Error?
    ensures Reports(StepRun(body + [e], false))
  {
    StatusesThenError(body, e);
  }

  /** A successful run that put only status events keeps the promise. */
  lemma QuietStepReports(body: seq<Event>)
    requires forall k :: 0 <= k < |body| ==> body[k].Status?
    ensures Reports(StepRun(body, true))
  {
    NoTerminal(body);
  }

  /** A sequence that counts no terminal event has none. */
  lemma {:induction false} CountedNone(s: seq<Event>)
    requires CountTerminal(s) == 0
    ensures forall k :: 0 <= k < |s| ==> !IsTerminal(s[k])
  {
    if s != [] {
      CountedNone(s[..|s| - 1]);
      assert forall k :: 0 <= k < |s| - 1 ==> s[k] == s[..|s| - 1][k];
    }
  }

  /** The position of the first terminal event of a sequence that has one. */
  lemma {:induction false} FirstTerminalAt(s: seq<Event>) returns (k: nat)
    requires CountTerminal(s) > 0
    ensures k < |s| && IsTerminal(s[k]) && forall j :: 0 <= j < k ==> !IsTerminal(s[j])
  {
    var init := s[..|s| - 1];
    if CountTerminal(init) > 0 {
      k := FirstTerminalAt(init);
      assert forall j :: 0 <= j <= k ==> s[j] == init[j];
    } else {
      CountedNone(init);
      k := |s| - 1;
      assert forall j :: 0 <= j < k ==> s[j] == init[j];
    }
  }
}
