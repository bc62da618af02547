/**
 * The report-button handler `handle_report_button` (src/main.py:166-209): a fixed
 * chain of checks and steps, each of which may end the handler with one message to
 * the chat. The chat is modelled as the outbox of actions the handler sends.
 */
module Pipeline {
  import opened Wrappers
  import opened Report
  import opened Fences
  import opened Markup

  /** Stand for the handler's fixed chat messages. */
  const KEY_MISSING_NOTICE: string := "Gemini API token not saved. Use the GUI application to save it."
  const INSTRUCTION_MISSING_NOTICE: string := "Report instruction not saved. Use the GUI application to save it."
  const PROGRESS_NOTICE: string := "Taking a screenshot and sending it to Gemini..."
  const CAPTURE_FAILED_NOTICE: string := "Error: could not take a screenshot."
  const SEND_ERROR_PREFIX: string := "Error sending the report: "

  const PARSE_MODE: string := "MarkdownV2"

  datatype Action = Text(message: string) | Photo(image: Bytes, caption: string, parseMode: string)

  predicate NoAdjacentBackticks(s: string)
  {
    forall i :: 0 < i < |s| ==> !(s[i - 1] == '`' && s[i] == '`')
  }

  /**
   * The caption sent with the screenshot: fences stripped, then escaped. Removing the
   * inserted backslashes gives the stripped report back, and no two backticks touch.
   */
  function Caption(report: string): (c: string)
    ensures NoAdjacentBackticks(c)
    ensures FenceFree(c)
    ensures Unescape(c) == StripFences(report)
  {
    var stripped := StripFences(report);
    UnescapeEscape(stripped);
    var c := EscapeMarkdown(stripped);
    assert forall i :: 0 < i < |c| && c[i] == '`' ==> c[i - 1] == '\\' by {
      assert IsReserved('`');
    }
    c
  }

  /** For a report without backslashes, Telegram renders the caption as the stripped report. */
  lemma CaptionRendersStrippedReport(report: string)
    requires forall i :: 0 <= i < |report| ==> report[i] != '\\'
    ensures ReadPlain(Caption(report)) == Some(StripFences(report))
  {
    var stripped := StripFences(report);
    StripKeepsText(report);
    forall i | 0 <= i < |stripped|
      ensures stripped[i] != '\\'
    {
      BackslashSurvivesInText(report, stripped, i);
    }
    ReadPlainEscape(stripped);
  }

  /** A character of the stripped text that is not a backtick comes from the report. */
  lemma BackslashSurvivesInText(report: string, stripped: string, i: nat)
    requires stripped == StripFences(report) && i < |stripped|
    requires forall j :: 0 <= j < |report| ==> report[j] != '\\'
    ensures stripped[i] != '\\'
  {
    NonTicksHasNoBackslash(report);
    StripKeepsText(report);
    if stripped[i] == '\\' {
      NonTicksKeeps(stripped, i);
      assert false;
    }
  }

  lemma {:induction false} NonTicksHasNoBackslash(s: string)
    requires forall j :: 0 <= j < |s| ==> s[j] != '\\'
    ensures '\\' !in NonTicks(s)
    decreases |s|
  {
    if s != [] {
      NonTicksHasNoBackslash(s[1..]);
    }
  }

  lemma {:induction false} NonTicksKeeps(s: string, i: nat)
    requires i < |s| && s[i] != '`'
    ensures s[i] in NonTicks(s)
    decreases |s|
  {
    if i > 0 {
      NonTicksKeeps(s[1..], i - 1);
    }
  }

  /** A sentence with no reserved character before its final full stop gets only that stop escaped. */
  lemma CaptionEscapesFinalStop(body: string)
    requires forall i :: 0 <= i < |body| ==> !IsReserved(body[i])
    ensures Caption(body + ".") == body + "\\."
  {
    var report := body + ".";
    assert IsReserved('`');
    NoTicksFenceFree(report);
    StripFenceFree(report);
    EscapeConcat(body, ".");
    EscapePlain(body);
    assert EscapeMarkdown(".") == "\\.";
  }

  /** An example: a report with a full stop and no backticks. */
  lemma CaptionOfPlainReport(report: string)
    requires report == "Report: 50% done."
    ensures Caption(report) == "Report: 50% done\\."
  {
    var body := report[..|report| - 1];
    forall i | 0 <= i < |body|
      ensures !IsReserved(body[i])
    {
      assert body[i] in {'R', 'e', 'p', 'o', 'r', 't', ':', ' ', '5', '0', '%', 'd', 'n'};
    }
    CaptionEscapesFinalStop(body);
    assert body + "." == report;
  }

  lemma NoTicksFenceFree(s: string)
    requires forall i :: 0 <= i < |s| ==> s[i] != '`'
    ensures FenceFree(s)
  {
  }

  /**
   * handle_report_button. Checks the Gemini key, then the instruction, then sends the
   * progress notice, takes the screenshot (`capture`, None standing for a failed
   * capture), runs the generator on the screenshot and the instruction (`request` is
   * the request it builds, `reply` what came back), and sends the photo, or the error
   * text when send_photo raises (`sendRaised`).
   */
  method HandleReportButton(geminiKey: string, instruction: string, capture: Option<Bytes>,
                            reply: StreamOutcome, sendRaised: Option<string>)
    returns (outbox: seq<Action>, screenshotTaken: bool, generatorInvoked: bool, request: Option<Request>)
    ensures geminiKey == [] ==>
      outbox == [Text(KEY_MISSING_NOTICE)] && !screenshotTaken && !generatorInvoked
    ensures geminiKey != [] && instruction == [] ==>
      outbox == [Text(INSTRUCTION_MISSING_NOTICE)] && !screenshotTaken && !generatorInvoked
    ensures screenshotTaken <==> geminiKey != [] && instruction != []
    ensures generatorInvoked <==> screenshotTaken && capture.Some? && capture.value != []
    ensures screenshotTaken && !generatorInvoked ==>
      outbox == [Text(PROGRESS_NOTICE), Text(CAPTURE_FAILED_NOTICE)]
    ensures generatorInvoked && sendRaised.None? ==>
      outbox == [Text(PROGRESS_NOTICE), Photo(capture.value, Caption(ReportFor(geminiKey, reply)), PARSE_MODE)]
    ensures generatorInvoked && sendRaised.Some? ==>
      outbox == [Text(PROGRESS_NOTICE), Text(SEND_ERROR_PREFIX + sendRaised.value)]
    ensures generatorInvoked ==>
      request == Some(Request(geminiKey, MODEL_NAME, instruction, capture.value, IMAGE_MIME_TYPE))
    ensures !generatorInvoked ==> request == None
    ensures forall a :: a in outbox && a.Photo? ==> generatorInvoked && NoAdjacentBackticks(a.caption)
  {
    outbox := [];
    screenshotTaken, generatorInvoked, request := false, false, None;
    if geminiKey == [] {
      outbox := outbox + [Text(KEY_MISSING_NOTICE)];
      return;
    }
    if instruction == [] {
      outbox := outbox + [Text(INSTRUCTION_MISSING_NOTICE)];
      return;
    }
    outbox := outbox + [Text(PROGRESS_NOTICE)];
    screenshotTaken := true;
    if capture.None? || capture.value == [] {
      outbox := outbox + [Text(CAPTURE_FAILED_NOTICE)];
      return;
    }
    var screenshot := capture.value;
    var report;
    report, request := GenerateReport(geminiKey, screenshot, instruction, reply);
    generatorInvoked := true;
    var cleaned := StripFences(report);
    var escaped := EscapeMarkdown(cleaned);
    if sendRaised.None? {
      outbox := outbox + [Photo(screenshot, escaped, PARSE_MODE)];
    } else {
      outbox := outbox + [Text(SEND_ERROR_PREFIX + sendRaised.value)];
    }
  }
}
