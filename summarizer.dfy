/**
  workflow_scripts/text_summarizer.py: `run_summarization` asks the model for a
  Markdown summary and writes it as a Word document, one paragraph per
  non-blank line, the paragraph style chosen by the line's Markdown prefix.
  The model's reply, the model's construction and the document save are inputs.
*/
module TextSummarizer {
  import opened Common
  import opened Text
  import opened Events

  /** The Word paragraph styles the summary uses (`Normal` is python-docx's default). */
  datatype Style = Heading1 | Heading2 | Heading3 | ListBullet | Normal

  function StyleName(s: Style): string {
    match s
    case Heading1 => "Heading 1"
    case Heading2 => "Heading 2"
    case Heading3 => "Heading 3"
    case ListBullet => "List Bullet"
    case Normal => "Normal"
  }

  datatype Paragraph = Paragraph(text: string, style: Style)

  /** The characters at which `str.splitlines` breaks a line. */
  predicate IsLineBreak(c: char) {
    c == '\n' || c == '\r' || c == '\U{0b}' || c == '\U{0c}' || ('\U{1c}' <= c <= '\U{1e}') ||
    c == '\U{85}' || c == '\U{2028}' || c == '\U{2029}'
  }

  /** Index of the first line break at or after `from`, or `|s|`. */
  function FirstBreak(s: string, from: nat): (i: nat)
    requires from <= |s|
    ensures from <= i <= |s|
    ensures i < |s| ==> IsLineBreak(s[i])
    ensures forall j :: from <= j < i ==> !IsLineBreak(s[j])
    decreases |s| - from
  {
    if from == |s| || IsLineBreak(s[from]) then from else FirstBreak(s, from + 1)
  }

  /** `s.splitlines()`: "\r\n" counts as one break and a final break adds no empty line. */
  function SplitLines(s: string): (lines: seq<string>)
    ensures forall k, j :: 0 <= k < |lines| && 0 <= j < |lines[k]| ==> !IsLineBreak(lines[k][j])
    ensures lines == [] <==> s == []
    ensures Concat(lines) == Visible(s)
    decreases |s|
  {
    if s == [] then []
    else
      var i := FirstBreak(s, 0);
      if i == |s| then
        VisibleUnbroken(s);
        [s]
      else
        var w := if s[i] == '\r' && i + 1 < |s| && s[i + 1] == '\n' then 2 else 1;
        var rest := SplitLines(s[i + w..]);
        VisibleAtBreak(s, i, w);
        assert Concat([s[..i]] + rest) == s[..i] + Concat(rest);
        [s[..i]] + rest
  }

  /** The lines put end to end. */
  function Concat(lines: seq<string>): string {
    if lines == [] then [] else lines[0] + Concat(lines[1..])
  }

  /** The text without its line-break characters. */
  function Visible(s: string): string {
    if s == [] then [] else (if IsLineBreak(s[0]) then [] else [s[0]]) + Visible(s[1..])
  }

  lemma {:induction false} VisibleUnbroken(s: string)
    requires forall j :: 0 <= j < |s| ==> !IsLineBreak(s[j])
    ensures Visible(s) == s
  {
    if s != [] {
      VisibleUnbroken(s[1..]);
    }
  }

  /** Cutting at a break of width `w` drops exactly the break from the visible text. */
  lemma {:induction false} VisibleAtBreak(s: string, i: nat, w: nat)
    requires i + w <= |s|
    requires forall j :: 0 <= j < i ==> !IsLineBreak(s[j])
    requires forall j :: i <= j < i + w ==> IsLineBreak(s[j])
    ensures Visible(s) == s[..i] + Visible(s[i + w..])
  {
    if i == 0 {
      VisibleDropsBreaks(s, w);
    } else {
      var t := s[1..];
      forall j | 0 <= j < i - 1 ensures !IsLineBreak(t[j]) {
        assert t[j] == s[j + 1];
      }
      forall j | i - 1 <= j < i - 1 + w ensures IsLineBreak(t[j]) {
        assert t[j] == s[j + 1];
      }
      VisibleAtBreak(t, i - 1, w);
      assert t[i - 1 + w..] == s[i + w..];
      assert [s[0]] + t[..i - 1] == s[..i];
    }
  }

  /** A leading run of `w` breaks contributes nothing to the visible text. */
  lemma {:induction false} VisibleDropsBreaks(s: string, w: nat)
    requires w <= |s|
    requires forall j :: 0 <= j < w ==> IsLineBreak(s[j])
    ensures Visible(s) == Visible(s[w..])
  {
    if w > 0 {
      var t := s[1..];
      forall j | 0 <= j < w - 1 ensures IsLineBreak(t[j]) {
        assert t[j] == s[j + 1];
      }
      VisibleDropsBreaks(t, w - 1);
      assert t[w - 1..] == s[w..];
    }
  }

  /** The first break at or after `from` is the one that only non-breaks precede. */
  lemma FirstBreakIs(s: string, from: nat, i: nat)
    requires from <= i <= |s| && (i < |s| ==> IsLineBreak(s[i]))
    requires forall j :: from <= j < i ==> !IsLineBreak(s[j])
    ensures FirstBreak(s, from) == i
  {
  }

  /** The lines joined with "\n", as `"\n".join(lines)` writes them. */
  function JoinLines(lines: seq<string>): string {
    if lines == [] then []
    else if |lines| == 1 then lines[0]
    else lines[0] + "\n" + JoinLines(lines[1..])
  }

  /**
    `splitlines` undoes `"\n".join`: lines without breaks, the last one not
    empty, come back unchanged.
  */
  lemma {:induction false} SplitJoinRoundTrip(lines: seq<string>)
    requires forall k, j :: 0 <= k < |lines| && 0 <= j < |lines[k]| ==> !IsLineBreak(lines[k][j])
    requires lines != [] ==> lines[|lines| - 1] != []
    ensures SplitLines(JoinLines(lines)) == lines
  {
    if |lines| == 1 {
      FirstBreakIs(lines[0], 0, |lines[0]|);
    } else if |lines| > 1 {
      var a, rest := lines[0], lines[1..];
      assert forall k, j :: 0 <= k < |rest| && 0 <= j < |rest[k]| ==> !IsLineBreak(rest[k][j]) by {
        forall k, j | 0 <= k < |rest| && 0 <= j < |rest[k]| ensures !IsLineBreak(rest[k][j]) {
          assert rest[k] == lines[k + 1];
        }
      }
      assert forall j :: 0 <= j < |a| ==> !IsLineBreak(a[j]) by {
        forall j | 0 <= j < |a| ensures !IsLineBreak(a[j]) {
          assert a == lines[0];
        }
      }
      SplitJoinRoundTrip(rest);
      SplitAfterLine(a, JoinLines(rest));
      assert lines == [a] + rest;
    }
  }

  /** A break-free line followed by "\n" splits off as the first line. */
  lemma SplitAfterLine(a: string, tail: string)
    requires forall j :: 0 <= j < |a| ==> !IsLineBreak(a[j])
    ensures SplitLines(a + "\n" + tail) == [a] + SplitLines(tail)
  {
    var s := a + "\n" + tail;
    assert s[|a|] == '\n' && s[..|a|] == a && s[|a| + 1..] == tail;
    FirstBreakIs(s, 0, |a|);
  }

  /**
    One stripped line to one paragraph: `# `, `## `, `### ` give the heading
    styles and `* `/`- ` a bullet, with the marker and the whitespace after it
    removed (`re.sub(r'^#\s+', '', …)` and its siblings); anything else keeps its
    stripped text in the default style.
  */
  function Classify(line: string): Paragraph {
    ClassifyStripped(Strip(line))
  }

  /** The classification of an already stripped line. */
  function ClassifyStripped(s: string): Paragraph {
    if StartsWith(s, "# ") then Paragraph(LStrip(s[1..]), Heading1)
    else if StartsWith(s, "## ") then Paragraph(LStrip(s[2..]), Heading2)
    else if StartsWith(s, "### ") then Paragraph(LStrip(s[3..]), Heading3)
    else if StartsWith(s, "* ") || StartsWith(s, "- ") then Paragraph(LStrip(s[1..]), ListBullet)
    else Paragraph(s, Normal)
  }

  /** The Markdown marker written for a paragraph style: `dash` picks `-` over `*` for a bullet; `Normal` has none. */
  function MarkerOf(st: Style, dash: bool): string {
    match st
    case Heading1 => "#"
    case Heading2 => "##"
    case Heading3 => "###"
    case ListBullet => if dash then "-" else "*"
    case Normal => ""
  }

  /** What `\s+` after a marker matches in a line that passed the `startswith` test: whitespace, starting with a space. */
  predicate IsGap(gap: string) {
    gap != [] && gap[0] == ' ' && forall i :: 0 <= i < |gap| ==> IsSpace(gap[i])
  }

  /**
    Classification reads back what was written: a marker, a run of whitespace
    that starts with a space, then text that does not start with whitespace,
    gives that text in the marker's style.
  */
  lemma ClassifyMarked(st: Style, dash: bool, gap: string, t: string)
    requires st != Normal && IsGap(gap) && t != [] && !IsSpace(t[0])
    ensures ClassifyStripped(MarkerOf(st, dash) + gap + t) == Paragraph(t, st)
  {
    match st
    case Heading1 => ClassifyHeading1(gap, t);
    case Heading2 => ClassifyHeading2(gap, t);
    case Heading3 => ClassifyHeading3(gap, t);
    case ListBullet => ClassifyBullet(MarkerOf(st, dash), gap, t);
  }

  lemma ClassifyHeading1(gap: string, t: string)
    requires IsGap(gap) && t != [] && !IsSpace(t[0])
    ensures ClassifyStripped("#" + gap + t) == Paragraph(t, Heading1)
  {
    var s := "#" + gap + t;
    MarkedParts("#", gap, t);
    LStripGap(gap, t);
    assert StartsWith(s, "# ");
  }

  lemma ClassifyHeading2(gap: string, t: string)
    requires IsGap(gap) && t != [] && !IsSpace(t[0])
    ensures ClassifyStripped("##" + gap + t) == Paragraph(t, Heading2)
  {
    var s := "##" + gap + t;
    MarkedParts("##", gap, t);
    LStripGap(gap, t);
    assert s[..2][1] == '#';
    assert StartsWith(s, "## ");
  }

  lemma ClassifyHeading3(gap: string, t: string)
    requires IsGap(gap) && t != [] && !IsSpace(t[0])
    ensures ClassifyStripped("###" + gap + t) == Paragraph(t, Heading3)
  {
    var s := "###" + gap + t;
    MarkedParts("###", gap, t);
    LStripGap(gap, t);
    assert s[..2][1] == '#' && s[..3][2] == '#';
    assert StartsWith(s, "### ");
  }

  lemma ClassifyBullet(m: string, gap: string, t: string)
    requires (m == "*" || m == "-") && IsGap(gap) && t != [] && !IsSpace(t[0])
    ensures ClassifyStripped(m + gap + t) == Paragraph(t, ListBullet)
  {
    var s := m + gap + t;
    MarkedParts(m, gap, t);
    LStripGap(gap, t);
    NoHeadingMarker(s);
    if m == "*" {
      assert StartsWith(s, "* ");
    } else {
      assert StartsWith(s, "- ");
    }
  }

  /** A line that does not start with `#` takes none of the heading branches. */
  lemma NoHeadingMarker(s: string)
    requires s != [] && s[0] != '#'
    ensures !StartsWith(s, "# ") && !StartsWith(s, "## ") && !StartsWith(s, "### ")
  {
    if |s| >= 2 {
      assert s[..2][0] == s[0];
    }
    if |s| >= 3 {
      assert s[..3][0] == s[0];
    }
    if |s| >= 4 {
      assert s[..4][0] == s[0];
    }
  }

  /** The pieces of a marked line: the marker and one space in front, the gap and the text behind the marker. */
  lemma MarkedParts(m: string, gap: string, t: string)
    requires IsGap(gap)
    ensures var s := m + gap + t;
      && |s| > |m| && s[..|m| + 1] == m + " " && s[|m|..] == gap + t
      && forall i :: 0 <= i < |m| ==> s[i] == m[i]
  {
    var s := m + gap + t;
    assert s[..|m| + 1] == m + " ";
    assert s[|m|..] == gap + t;
  }

  /** `lstrip` drops exactly a leading whitespace run that a non-space follows. */
  lemma LStripGap(gap: string, t: string)
    requires forall i :: 0 <= i < |gap| ==> IsSpace(gap[i])
    requires t != [] && !IsSpace(t[0])
    ensures LStrip(gap + t) == t
  {
    assert (gap + t)[|gap|..] == t;
  }

  /** A stripped line with none of the five markers is kept whole in the default style, and only such a line is. */
  lemma UnmarkedIsNormal(s: string)
    ensures ClassifyStripped(s) == Paragraph(s, Normal) <==>
      !StartsWith(s, "# ") && !StartsWith(s, "## ") && !StartsWith(s, "### ") && !StartsWith(s, "* ") && !StartsWith(s, "- ")
  {
  }

  /** The paragraphs the loop over `lines` appends: blank lines skipped, one paragraph per other line. */
  function Paragraphs(lines: seq<string>): seq<Paragraph> {
    if lines == [] then []
    else
      var last := lines[|lines| - 1];
      Paragraphs(lines[..|lines| - 1]) + (if IsBlank(last) then [] else [Classify(last)])
  }

  /** The Markdown prefixes are tested in an order where at most one can match. */
  lemma PrefixesExclusive(s: string)
    ensures StartsWith(s, "# ") ==> !StartsWith(s, "## ") && !StartsWith(s, "### ") && !StartsWith(s, "* ") && !StartsWith(s, "- ")
    ensures StartsWith(s, "## ") ==> !StartsWith(s, "### ") && !StartsWith(s, "* ") && !StartsWith(s, "- ")
    ensures StartsWith(s, "### ") ==> !StartsWith(s, "* ") && !StartsWith(s, "- ")
  {
    if StartsWith(s, "# ") {
      assert s[1] == ' ';
    }
    if StartsWith(s, "## ") {
      assert s[2] == ' ' && s[0] == '#';
    }
    if StartsWith(s, "### ") {
      assert s[0] == '#';
    }
  }

  /**
    Classification only removes a marker from the front of the stripped line:
    the text is a suffix of it, and it is the whole line exactly when the style
    is `Normal`.
  */
  lemma ClassifyKeepsContent(line: string)
    ensures var s, p := Strip(line), Classify(line);
      && |p.text| <= |s| && p.text == s[|s| - |p.text|..]
      && (p.style == Normal <==> p.text == s)
  {
    MarkerDropped(Strip(line));
  }

  /** The same on a line that is already stripped. */
  lemma MarkerDropped(s: string)
    ensures var p := ClassifyStripped(s);
      && |p.text| <= |s| && p.text == s[|s| - |p.text|..]
      && (p.style == Normal <==> p.text == s)
  {
    var p := ClassifyStripped(s);
    if p.style != Normal {
      var m := if StartsWith(s, "# ") then 1 else if StartsWith(s, "## ") then 2
               else if StartsWith(s, "### ") then 3 else 1;
      assert p.text == LStrip(s[m..]);
      assert s[m..][|s[m..]| - |p.text|..] == s[|s| - |p.text|..];
    }
  }

  /** Text that ends with a non-space keeps that character through `lstrip`. */
  lemma LStripKeepsLast(t: string)
    requires t != [] && !IsSpace(t[|t| - 1])
    ensures LStrip(t) != []
  {
  }

  /** Every paragraph written for a non-blank line has non-empty text that does not start with whitespace. */
  lemma ClassifiedTextNonEmpty(line: string)
    requires !IsBlank(line)
    ensures Classify(line).text != [] && !IsSpace(Classify(line).text[0])
  {
    StripEmptyIffBlank(line);
    StripIsSlice(line);
    StrippedTextNonEmpty(Strip(line));
  }

  lemma StrippedTextNonEmpty(s: string)
    requires s != [] && !IsSpace(s[0]) && !IsSpace(s[|s| - 1])
    ensures ClassifyStripped(s).text != [] && !IsSpace(ClassifyStripped(s).text[0])
  {
    PrefixesExclusive(s);
    if StartsWith(s, "# ") {
      MarkerRemoved(s, "# ");
    } else if StartsWith(s, "## ") {
      MarkerRemoved(s, "## ");
    } else if StartsWith(s, "### ") {
      MarkerRemoved(s, "### ");
    } else if StartsWith(s, "* ") {
      MarkerRemoved(s, "* ");
    } else if StartsWith(s, "- ") {
      MarkerRemoved(s, "- ");
    }
  }

  /**
    Removing a marker that ends in a space, and the whitespace after it, from a
    line that ends with a non-space leaves text that starts with a non-space.
  */
  lemma MarkerRemoved(s: string, marker: string)
    requires |marker| < |s| && StartsWith(s, marker)
    requires marker != [] && marker[|marker| - 1] == ' ' && !IsSpace(s[|s| - 1])
    ensures LStrip(s[|marker| - 1..]) != [] && !IsSpace(LStrip(s[|marker| - 1..])[0])
  {
    LStripKeepsLast(s[|marker| - 1..]);
  }

  /** The paragraph loop is compositional: splitting the lines splits the paragraphs, order kept. */
  lemma {:induction false} ParagraphsAppend(a: seq<string>, b: seq<string>)
    ensures Paragraphs(a + b) == Paragraphs(a) + Paragraphs(b)
    decreases |b|
  {
    if b != [] {
      assert (a + b)[..|a + b| - 1] == a + b[..|b| - 1];
      ParagraphsAppend(a, b[..|b| - 1]);
    } else {
      assert a + b == a;
    }
  }

  lemma ParagraphsPrefixStep(lines: seq<string>, i: nat)
    requires i < |lines|
    ensures Paragraphs(lines[..i + 1]) == Paragraphs(lines[..i]) + (if IsBlank(lines[i]) then [] else [Classify(lines[i])])
  {
    assert lines[..i + 1][..i] == lines[..i];
  }

  /** Exactly the non-blank lines produce a paragraph. */
  lemma {:induction false} ParagraphsCount(lines: seq<string>)
    ensures |Paragraphs(lines)| == Count(lines, (l: string) => !IsBlank(l))
  {
    if lines != [] {
      ParagraphsCount(lines[..|lines| - 1]);
    }
  }

  /** Everything `run_summarization` produces: its events, its return value and the saved document. */
  datatype SummaryRun = SummaryRun(events: seq<Event>, ok: bool, doc: seq<Paragraph>)

  const InitStatus: Event := Status(None, "初始化摘要模型...", Some(10))
  const CallStatus: Event := Status(None, "正在呼叫 AI 生成摘要...", Some(30))
  const SaveStatus: Event := Status(None, "正在格式化並儲存摘要檔案...", Some(80))
  const EmptyInputMessage: string := "輸入的文字內容為空。"

  /**
    The specification of `run_summarization`. `modelError` is the exception of
    `genai.GenerativeModel`, `reply` the result of `generate_content`, and
    `writeError` an exception while building or saving the document.
  */
  function Summarization(documentText: string, modelError: Option<string>, reply: ModelReply,
                         writeError: Option<string>): SummaryRun
  {
    if modelError.Some? then
      SummaryRun([InitStatus, Error("建立摘要模型失敗: " + modelError.value)], false, [])
    else if IsBlank(documentText) then
      SummaryRun([InitStatus, Error(EmptyInputMessage)], false, [])
    else match reply
      case Fails(m) =>
        SummaryRun([InitStatus, CallStatus, Error("呼叫 AI 時發生錯誤: " + m)], false, [])
      case Reply(text, feedback) =>
        if text == [] then
          SummaryRun([InitStatus, CallStatus, Error("AI 未能生成摘要" + BlockReason(feedback))], false, [])
        else if writeError.Some? then
          SummaryRun([InitStatus, CallStatus, SaveStatus, Error("寫入摘要檔案失敗: " + writeError.value)], false, [])
        else
          SummaryRun([InitStatus, CallStatus, SaveStatus], true, Paragraphs(SplitLines(Strip(text))))
  }

  /** The document-building step of `run_summarization`: one paragraph per non-blank line of the stripped reply. */
  method FormatSummary(summary: string) returns (doc: seq<Paragraph>)
    ensures doc == Paragraphs(SplitLines(Strip(summary)))
  {
    doc := FormatLines(SplitLines(Strip(summary)));
  }

  /** The loop over the lines: blank lines are skipped, every other line is classified and appended. */
  method FormatLines(lines: seq<string>) returns (doc: seq<Paragraph>)
    ensures doc == Paragraphs(lines)
  {
    doc := [];
    var i := 0;
    while i < |lines|
      invariant 0 <= i <= |lines|
      invariant doc == Paragraphs(lines[..i])
    {
      var line := lines[i];
      if !IsBlank(line) {
        doc := doc + [Classify(line)];
      }
      ParagraphsPrefixStep(lines, i);
      i := i + 1;
    }
    assert lines[..i] == lines;
  }

  /**
    `run_summarization` written step by step, as the source runs it; it is
    proved equal to the specification `Summarization`, about which the lemmas
    below state what the run means.
  */
  method RunSummarization(documentText: string, modelError: Option<string>, reply: ModelReply,
                          writeError: Option<string>) returns (run: SummaryRun)
    ensures run == Summarization(documentText, modelError, reply, writeError)
  {
    if modelError.Some? {
      return SummaryRun([InitStatus, Error("建立摘要模型失敗: " + modelError.value)], false, []);
    }
    if IsBlank(documentText) {
      return SummaryRun([InitStatus, Error(EmptyInputMessage)], false, []);
    }
    match reply {
      case Fails(m) =>
        return SummaryRun([InitStatus, CallStatus, Error("呼叫 AI 時發生錯誤: " + m)], false, []);
      case Reply(text, feedback) =>
        if text == [] {
          return SummaryRun([InitStatus, CallStatus, Error("AI 未能生成摘要" + BlockReason(feedback))], false, []);
        }
        if writeError.Some? {
          return SummaryRun([InitStatus, CallStatus, SaveStatus, Error("寫入摘要檔案失敗: " + writeError.value)], false, []);
        }
        var doc := FormatSummary(text);
        run := SummaryRun([InitStatus, CallStatus, SaveStatus], true, doc);
    }
  }

  /** Blank input fails with one error before the model is called: the reply and the save play no part. */
  lemma BlankInputSkipsModel(documentText: string, r1: ModelReply, r2: ModelReply, w1: Option<string>, w2: Option<string>)
    requires IsBlank(documentText)
    ensures Summarization(documentText, None, r1, w1) == Summarization(documentText, None, r2, w2)
    ensures Summarization(documentText, None, r1, w1) == SummaryRun([InitStatus, Error(EmptyInputMessage)], false, [])
  {
  }

  /** Success is reported by status events 10, 30, 80 alone; every failure ends with one `error` event. */
  lemma SummarizationOutcome(documentText: string, modelError: Option<string>, reply: ModelReply, writeError: Option<string>)
    ensures var run := Summarization(documentText, modelError, reply, writeError);
      && (run.ok <==> modelError.None? && !IsBlank(documentText) && reply.Reply? && reply.text != [] && writeError.None?)
      && (run.ok ==> run.events == [InitStatus, CallStatus, SaveStatus])
      && (!run.ok ==> |run.events| >= 2 && run.events[|run.events| - 1].Error? && run.doc == [] &&
                      forall k :: 0 <= k < |run.events| - 1 ==> run.events[k].Status?)
  {
  }
}
