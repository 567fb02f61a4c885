/**
 * The `/print` endpoint of `Program.cs` and its `PrinterErrorHelper`: pick
 * the printer (USB first), run `PrintTemplateAsync`, and shape what comes
 * back into an HTTP result — the snapshot's details when the job ended with
 * an alarm or error code, a timeout answer, or the details a classifier
 * extracts from the exception's message.
 */
module Endpoint {
  import opened Wrappers
  import opened Text
  import opened Patterns
  import opened Sdk
  import opened Attempts
  import opened TemplateService

  // ---------------------------------------------------------------------------
  // The alarm table

  /** The categories the table's messages start with. */
  const MEDIA: string := "Media: "
  const RIBBON: string := "Ribbon: "
  const PRINTER: string := "Printer: "

  /** The messages of alarm codes 4001 to 4007, in order. */
  const ALARM_MESSAGES: seq<string> := [
    MEDIA + "Out of cards. Please load cards into the printer.",
    MEDIA + "Card jam. Please check and clear the card path.",
    RIBBON + "Out of ribbon. Please replace the ribbon.",
    RIBBON + "Ribbon jam. Please check and clear the ribbon path.",
    PRINTER + "Cover open. Please close the printer cover.",
    PRINTER + "Temperature error. Please wait for the printer to cool down.",
    PRINTER + "Communication error. Please check the connection."
  ]

  const UNKNOWN_ALARM_PREFIX: string := "Printer error: Alarm code "

  /** `PrinterErrorHelper.GetPrinterErrorMessage`: the fixed table, else the code spelled out. */
  function GetPrinterErrorMessage(alarmCode: int): (m: string)
    ensures 4001 <= alarmCode <= 4007 ==> m == ALARM_MESSAGES[alarmCode - 4001]
    ensures !(4001 <= alarmCode <= 4007) ==> m == UNKNOWN_ALARM_PREFIX + IntToString(alarmCode)
  {
    if 4001 <= alarmCode <= 4007 then ALARM_MESSAGES[alarmCode - 4001] else UNKNOWN_ALARM_PREFIX + IntToString(alarmCode)
  }

  /**
   * No message of the table reads like the fallback for an unknown code:
   * the fallback starts with "Printer " where the table has a category
   * ending in a colon.
   */
  lemma TableIsNotFallback(i: nat, s: string)
    requires i < |ALARM_MESSAGES|
    ensures ALARM_MESSAGES[i] != UNKNOWN_ALARM_PREFIX + s
  {
    var f := UNKNOWN_ALARM_PREFIX + s;
    if i < 4 {
      assert f[0] == 'P' && ALARM_MESSAGES[i][0] != 'P';
    } else {
      assert f[7] == ' ' && ALARM_MESSAGES[i][7] == ':';
    }
  }

  /** Different alarm codes get different messages: the message identifies the code. */
  lemma GetPrinterErrorMessageInjective(a: int, b: int)
    requires a != b
    ensures GetPrinterErrorMessage(a) != GetPrinterErrorMessage(b)
  {
    var inA, inB := 4001 <= a <= 4007, 4001 <= b <= 4007;
    if inA && inB {
      assert |ALARM_MESSAGES[a - 4001]| != |ALARM_MESSAGES[b - 4001]|;
    } else if inA {
      TableIsNotFallback(a - 4001, IntToString(b));
    } else if inB {
      TableIsNotFallback(b - 4001, IntToString(a));
    } else {
      var ma, mb := UNKNOWN_ALARM_PREFIX + IntToString(a), UNKNOWN_ALARM_PREFIX + IntToString(b);
      IntToStringDistinct(a, b);
      assert ma[|UNKNOWN_ALARM_PREFIX|..] == IntToString(a);
      assert mb[|UNKNOWN_ALARM_PREFIX|..] == IntToString(b);
    }
  }

  // ---------------------------------------------------------------------------
  // Choosing the printer

  /** A printer discovery found; `name` is what its `ToString()` renders. */
  datatype DiscoveredPrinter = DiscoveredUsbPrinter(name: string) | DiscoveredNetworkPrinter(name: string)

  /** What `DiscoverPrintersAsync` returned: the USB list and the network list. */
  datatype Discovery = Discovery(usb: seq<DiscoveredPrinter>, network: seq<DiscoveredPrinter>)

  /**
   * `usbPrinters.FirstOrDefault() ?? networkPrinters.FirstOrDefault()`. The
   * choice prefers USB: it is the first USB printer whenever there is one,
   * the first network printer only when there is none, and nothing only
   * when both lists are empty; whatever is chosen was discovered.
   */
  function SelectPrinter(d: Discovery): (r: Option<DiscoveredPrinter>)
    ensures r.None? <==> d.usb == [] && d.network == []
    ensures d.usb != [] ==> r == Some(d.usb[0])
    ensures d.usb == [] && d.network != [] ==> r == Some(d.network[0])
    ensures r.Some? ==> r.value in d.usb + d.network
  {
    if |d.usb| > 0 then Some(d.usb[0]) else if |d.network| > 0 then Some(d.network[0]) else None
  }

  /** `printer is DiscoveredUsbPrinter ? "USB" : "Network"`. */
  function PrinterType(p: DiscoveredPrinter): (t: string)
    ensures t == "USB" <==> p.DiscoveredUsbPrinter?
    ensures t == "USB" || t == "Network"
  {
    if p.DiscoveredUsbPrinter? then "USB" else "Network"
  }

  // ---------------------------------------------------------------------------
  // Results

  /** A value of a result dictionary: an `int` or a `string`. */
  datatype Value = IntValue(i: int) | StringValue(s: string)

  type Details = map<string, Value>

  /**
   * The HTTP results the endpoint returns: `Results.Ok` (an anonymous
   * object, here its members as a dictionary), `UnprocessableEntity`,
   * `Problem` and `NotFound`.
   */
  datatype Response = Ok(body: Details) | UnprocessableEntity(body: Details) | Problem(detail: string) | NotFound(message: string)

  const NO_PRINTERS: string := "No printers found. Please connect a printer and try again."
  const TEMPLATE_MISSING: string := "Template file not found"
  const GENERIC_MESSAGE: string := "An unexpected printer error occurred."
  /** `OverflowException.Message` of the .NET runtime, thrown by `int.Parse`. */
  const OVERFLOW_MESSAGE: string := "Value was either too large or too small for an Int32."

  /** The five members every job answer has. */
  function JobDetails(p: DiscoveredPrinter, jobId: int, status: JobStatusInfo): Details {
    map["JobId" := IntValue(jobId), "PrinterUsed" := StringValue(p.name), "PrinterType" := StringValue(PrinterType(p)),
        "Status" := StringValue(status.printStatus), "Position" := StringValue(status.cardPosition)]
  }

  /**
   * The answer for a job `PrintTemplateAsync` returned: 422 with the job's
   * details when the final snapshot carries an alarm or error code, with the
   * alarm's code and description and the error's code and description added
   * for whichever is set; 200 with just the job's details otherwise.
   */
  function JobResponse(p: DiscoveredPrinter, jobId: int, status: JobStatusInfo): (r: Response)
    ensures r.Ok? || r.UnprocessableEntity?
    ensures r.UnprocessableEntity? <==> status.alarmInfo.value > 0 || status.errorInfo.value > 0
    ensures r.body.Keys == {"JobId", "PrinterUsed", "PrinterType", "Status", "Position"}
      + (if r.UnprocessableEntity? && status.alarmInfo.value > 0 then {"AlarmCode", "Message"} else {})
      + (if r.UnprocessableEntity? && status.errorInfo.value > 0 then {"ErrorCode", "ErrorMessage"} else {})
    ensures && r.body["JobId"] == IntValue(jobId) && r.body["PrinterUsed"] == StringValue(p.name)
            && r.body["PrinterType"] == StringValue(PrinterType(p))
            && r.body["Status"] == StringValue(status.printStatus) && r.body["Position"] == StringValue(status.cardPosition)
    ensures "AlarmCode" in r.body ==>
      r.body["AlarmCode"] == IntValue(status.alarmInfo.value) && r.body["Message"] == StringValue(status.alarmInfo.description)
    ensures "ErrorCode" in r.body ==>
      r.body["ErrorCode"] == IntValue(status.errorInfo.value) && r.body["ErrorMessage"] == StringValue(status.errorInfo.description)
  {
    var details := JobDetails(p, jobId, status);
    if status.alarmInfo.value > 0 || status.errorInfo.value > 0 then
      var withAlarm := if status.alarmInfo.value > 0 then
        details["AlarmCode" := IntValue(status.alarmInfo.value)]["Message" := StringValue(status.alarmInfo.description)]
      else details;
      var withError := if status.errorInfo.value > 0 then
        withAlarm["ErrorCode" := IntValue(status.errorInfo.value)]["ErrorMessage" := StringValue(status.errorInfo.description)]
      else withAlarm;
      UnprocessableEntity(withError)
    else
      Ok(details)
  }

  /** The `TimeoutException` answer: 422 with just the error's name and its message. */
  function TimeoutResponse(f: Fault): (r: Response)
    ensures r.UnprocessableEntity? && r.body.Keys == {"Error", "Message"}
    ensures r.body["Error"] == StringValue("Timeout") && r.body["Message"] == StringValue(f.message)
  {
    UnprocessableEntity(map["Error" := StringValue("Timeout"), "Message" := StringValue(f.message)])
  }

  // ---------------------------------------------------------------------------
  // The classifier of exception messages

  /** `int.Parse` of a matched run of digits; its `OverflowException` as a fault. */
  function ParseCode(digits: string): (r: Reply<int>)
    requires forall j :: 0 <= j < |digits| ==> IsDigit(digits[j])
    ensures r.Returns? <==> DigitsValue(digits) <= INT32_MAX
    ensures r.Returns? ==> r.value == DigitsValue(digits)
    ensures r.Throws? ==> r.fault == Fault(Overflow, OVERFLOW_MESSAGE, None)
  {
    match ParseInt32(digits)
    case Some(n) => Returns(n)
    case None => Throws(Fault(Overflow, OVERFLOW_MESSAGE, None))
  }

  /**
   * The code after the leftmost `literal` followed by digits, parsed:
   * None when the pattern `literal(\d+)` does not match.
   */
  function CodeAfter(message: string, literal: string): Option<Reply<int>> {
    match Match(message, literal, Digit)
    case None => None
    case Some(g) => Some(ParseCode(g))
  }

  /**
   * What the classifier's four regular expressions found: group 1 of
   * `status:(\w+)` and `position:(\w+)`, and `int.Parse` of group 1 of
   * `alarm:(\d+)` and `error:(\d+)`; None where a match did not succeed.
   */
  datatype Matches = Matches(status: Option<string>, position: Option<string>,
                             alarm: Option<Reply<int>>, error: Option<Reply<int>>)

  function MatchesOf(message: string): Matches {
    Matches(Match(message, "status:", Word), Match(message, "position:", Word),
            CodeAfter(message, "alarm:"), CodeAfter(message, "error:"))
  }

  /** What an `if (match.Success)` block for a word token adds to the dictionary. */
  function AddToken(d: Details, key: string, token: Option<string>): Details {
    if token.Some? then d[key := StringValue(token.value)] else d
  }

  /**
   * The dictionary the `catch (Exception printEx)` block builds from the
   * matches, in its order: the status and position tokens, the alarm code
   * with its table message, the error code, the generic message when
   * nothing was found, and the exception message. A code too large for an
   * `int` makes `int.Parse` throw, which leaves the block.
   */
  function Collect(m: Matches, message: string): (r: Reply<Details>)
    ensures r.Returns? ==> "ExceptionMessage" in r.value && r.value["ExceptionMessage"] == StringValue(message)
  {
    var d2 := AddToken(AddToken(map[], "Status", m.status), "Position", m.position);
    if m.alarm.Some? && m.alarm.value.Throws? then Throws(m.alarm.value.fault)
    else
      var d3 := if m.alarm.Some? then
        d2["AlarmCode" := IntValue(m.alarm.value.value)]["Message" := StringValue(GetPrinterErrorMessage(m.alarm.value.value))]
      else d2;
      if m.error.Some? && m.error.value.Throws? then Throws(m.error.value.fault)
      else
        var d4 := if m.error.Some? then d3["ErrorCode" := IntValue(m.error.value.value)] else d3;
        var d5 := if |d4| == 0 then d4["Message" := StringValue(GENERIC_MESSAGE)] else d4;
        Returns(d5["ExceptionMessage" := StringValue(message)])
  }

  /** The classifier applied to an exception's message. */
  function ClassifyMessage(message: string): (r: Reply<Details>)
    ensures r.Returns? ==> "ExceptionMessage" in r.value && r.value["ExceptionMessage"] == StringValue(message)
  {
    Collect(MatchesOf(message), message)
  }

  /** The classifier fails exactly when a matched code does not fit an `int`, with `int.Parse`'s exception. */
  lemma CollectOverflow(m: Matches, message: string)
    ensures var r := Collect(m, message);
      && (r.Throws? <==> (m.alarm.Some? && m.alarm.value.Throws?) || (m.error.Some? && m.error.value.Throws?))
      && (r.Throws? ==> r.fault == (if m.alarm.Some? && m.alarm.value.Throws? then m.alarm else m.error).value.fault)
  {
  }

  /** It only ever writes the six keys of the block. */
  lemma CollectKeys(m: Matches, message: string)
    requires Collect(m, message).Returns?
    ensures Collect(m, message).value.Keys <= {"Status", "Position", "AlarmCode", "Message", "ErrorCode", "ExceptionMessage"}
  {
  }

  /** `Status` and `Position` are present exactly when their patterns matched, with group 1 of the match. */
  lemma CollectTokens(m: Matches, message: string)
    requires Collect(m, message).Returns?
    ensures var d := Collect(m, message).value;
      && ("Status" in d <==> m.status.Some?) && (m.status.Some? ==> d["Status"] == StringValue(m.status.value))
      && ("Position" in d <==> m.position.Some?) && (m.position.Some? ==> d["Position"] == StringValue(m.position.value))
  {
  }

  /**
   * `AlarmCode` is present exactly when `alarm:(\d+)` matched, holds the
   * parsed code, and `Message` is then that code's table message;
   * `ErrorCode` likewise for `error:(\d+)`.
   */
  lemma CollectCodes(m: Matches, message: string)
    requires Collect(m, message).Returns?
    ensures var d := Collect(m, message).value;
      && ("AlarmCode" in d <==> m.alarm.Some?)
      && (m.alarm.Some? ==> m.alarm.value.Returns? && d["AlarmCode"] == IntValue(m.alarm.value.value)
                            && d["Message"] == StringValue(GetPrinterErrorMessage(m.alarm.value.value)))
      && ("ErrorCode" in d <==> m.error.Some?)
      && (m.error.Some? ==> m.error.value.Returns? && d["ErrorCode"] == IntValue(m.error.value.value))
  {
  }

  /** No alarm code's message is the generic message. */
  lemma AlarmMessageIsNotGeneric(code: int)
    ensures GetPrinterErrorMessage(code) != GENERIC_MESSAGE
  {
    var m := GetPrinterErrorMessage(code);
    assert GENERIC_MESSAGE[0] == 'A';
    if 4001 <= code <= 4007 {
      assert m[0] == ALARM_MESSAGES[code - 4001][0];
    } else {
      assert m[0] == 'P';
    }
  }

  /**
   * `Message` is present exactly when an alarm code matched or nothing
   * matched at all, and it is the generic message exactly when nothing did.
   */
  lemma CollectFallback(m: Matches, message: string)
    requires Collect(m, message).Returns?
    ensures var d, none := Collect(m, message).value, m.status.None? && m.position.None? && m.alarm.None? && m.error.None?;
      && ("Message" in d <==> m.alarm.Some? || none)
      && ("Message" in d ==> (d["Message"] == StringValue(GENERIC_MESSAGE) <==> none))
  {
    if m.alarm.Some? {
      AlarmMessageIsNotGeneric(m.alarm.value.value);
    }
  }

  /**
   * On a message, each of `Status`, `Position`, `AlarmCode` and
   * `ErrorCode` is present exactly when its pattern occurs in it, and the
   * tokens are group 1 of the leftmost match.
   */
  lemma ClassifyFindsPatterns(message: string)
    requires ClassifyMessage(message).Returns?
    ensures var d := ClassifyMessage(message).value;
      && ("Status" in d <==> exists i :: MatchesAt(message, "status:", Word, i))
      && ("Position" in d <==> exists i :: MatchesAt(message, "position:", Word, i))
      && ("AlarmCode" in d <==> exists i :: MatchesAt(message, "alarm:", Digit, i))
      && ("ErrorCode" in d <==> exists i :: MatchesAt(message, "error:", Digit, i))
      && ("Status" in d ==> d["Status"] == StringValue(Match(message, "status:", Word).value))
      && ("Position" in d ==> d["Position"] == StringValue(Match(message, "position:", Word).value))
  {
    var m := MatchesOf(message);
    CollectTokens(m, message);
    CollectCodes(m, message);
    MatchSucceeds(message, "status:", Word);
    MatchSucceeds(message, "position:", Word);
    MatchSucceeds(message, "alarm:", Digit);
    MatchSucceeds(message, "error:", Digit);
  }

  /**
   * A literal ending in a colon matches nowhere in `message` when every
   * place its colon could land lacks the literal's first character.
   */
  lemma NoMatchWithoutColon(message: string, literal: string, k: CharClass)
    requires |literal| > 0 && literal[|literal| - 1] == ':'
    requires forall i :: 0 <= i && i + |literal| <= |message| && message[i + |literal| - 1] == ':' ==> message[i] != literal[0]
    ensures Match(message, literal, k).None?
  {
    MatchSucceeds(message, literal, k);
    forall i | 0 <= i && i + |literal| < |message|
      ensures !MatchesAt(message, literal, k, i)
    {
      var w := message[i..i + |literal|];
      assert w[0] == message[i] && w[|literal| - 1] == message[i + |literal| - 1];
    }
  }

  /**
   * A message carrying only an alarm code comes back as that code with its
   * table message, or, for a code that does not fit an `int`, as
   * `int.Parse`'s overflow.
   */
  lemma ClassifyAlarmMessage(code: nat)
    ensures var message := "alarm:" + NatToString(code);
      && (code <= INT32_MAX ==> ClassifyMessage(message) == Returns(map[
            "AlarmCode" := IntValue(code),
            "Message" := StringValue(GetPrinterErrorMessage(code)),
            "ExceptionMessage" := StringValue(message)]))
      && (code > INT32_MAX ==> ClassifyMessage(message) == Throws(Fault(Overflow, OVERFLOW_MESSAGE, None)))
  {
    var digits := NatToString(code);
    AlarmMessageMatches(digits);
    DigitsValueOfNatToString(code);
  }

  /** In "alarm:" followed by digits only the alarm pattern matches, and its group is the digits. */
  lemma AlarmMessageMatches(digits: string)
    requires |digits| > 0 && forall j :: 0 <= j < |digits| ==> IsDigit(digits[j])
    ensures MatchesOf("alarm:" + digits) == Matches(None, None, Some(ParseCode(digits)), None)
  {
    var message := "alarm:" + digits;
    assert forall j :: 6 <= j < |message| ==> message[j] == digits[j - 6];
    assert message[0] == 'a';
    NoMatchWithoutColon(message, "status:", Word);
    NoMatchWithoutColon(message, "position:", Word);
    NoMatchWithoutColon(message, "error:", Digit);
    MatchOfLiteralThenRun("alarm:", digits, Digit);
  }

  // ---------------------------------------------------------------------------
  // The endpoint

  /**
   * The answer to the outcome of `PrintTemplateAsync` on printer `p`: the
   * job answer when it returned, the timeout answer for a
   * `TimeoutException`, the classifier's details for any other exception,
   * and a problem with the message of the exception the classifier itself
   * throws, which the outer `catch` turns into `Results.Problem`.
   */
  function PrintResponse(p: DiscoveredPrinter, outcome: Reply<(int, JobStatusInfo)>): Response {
    match outcome
    case Returns((jobId, status)) => JobResponse(p, jobId, status)
    case Throws(f) =>
      if f.kind == Timeout then TimeoutResponse(f)
      else match ClassifyMessage(f.message)
        case Returns(details) => UnprocessableEntity(details)
        case Throws(g) => Problem(g.message)
  }

  /**
   * The kinds of answer the outcome leads to: 200 only for a job whose
   * snapshot has no alarm or error code; for any exception other than a
   * timeout, 422 carrying the exception's message, or a problem saying
   * that a code in it overflowed.
   */
  lemma PrintResponseKinds(p: DiscoveredPrinter, outcome: Reply<(int, JobStatusInfo)>)
    ensures var r := PrintResponse(p, outcome);
      && (r.Ok? <==> outcome.Returns? && outcome.value.1.alarmInfo.value <= 0 && outcome.value.1.errorInfo.value <= 0)
      && (r.Ok? ==> r.body.Keys == {"JobId", "PrinterUsed", "PrinterType", "Status", "Position"})
      && (outcome.Throws? && outcome.fault.kind == Timeout ==> r == TimeoutResponse(outcome.fault))
      && (outcome.Throws? && outcome.fault.kind != Timeout ==>
            || (r.UnprocessableEntity? && r.body["ExceptionMessage"] == StringValue(outcome.fault.message))
            || r == Problem(OVERFLOW_MESSAGE))
      && !r.NotFound?
  {
    if outcome.Throws? && outcome.fault.kind != Timeout {
      CollectOverflow(MatchesOf(outcome.fault.message), outcome.fault.message);
    }
  }

  /** Only a `TimeoutException` gets an answer with the `Error` key. */
  lemma ErrorKeyOnlyForTimeout(p: DiscoveredPrinter, outcome: Reply<(int, JobStatusInfo)>)
    ensures var r := PrintResponse(p, outcome);
      r.UnprocessableEntity? && "Error" in r.body ==> outcome.Throws? && outcome.fault.kind == Timeout
  {
    if outcome.Throws? && outcome.fault.kind != Timeout {
      var m := MatchesOf(outcome.fault.message);
      if Collect(m, outcome.fault.message).Returns? {
        CollectKeys(m, outcome.fault.message);
      }
    }
  }

  /**
   * `PrintTemplateAsync` wraps every failure in a plain `Exception`, so the
   * endpoint's `TimeoutException` answer is never given for it: no 422
   * answer to a run of the service carries the `Error` key.
   */
  lemma PrintServiceNeverTimesOut(p: DiscoveredPrinter, script: nat -> AttemptScript, req: Request, now: nat, connections: nat)
    ensures var r := PrintResponse(p, PrintTemplateRun(script, req, now, connections).result);
      r.UnprocessableEntity? ==> "Error" !in r.body
  {
    var outcome := PrintTemplateRun(script, req, now, connections).result;
    PrintTemplateAttempts(script, req, now, connections);
    assert outcome.Throws? ==> outcome.fault.kind == Plain;
    ErrorKeyOnlyForTimeout(p, outcome);
  }

  /**
   * The `/print` handler after discovery: given the discovery result, the
   * template file's text (None when it does not exist) and the request's
   * field data, it picks the printer, runs the service once on it and
   * answers; discovery's own exception becomes a problem with its message.
   * The service's device stands for the chosen printer.
   */
  method HandlePrint(service: PrinterTemplateService, discovered: Reply<Discovery>, templateFile: Option<string>,
                     fieldData: FieldData) returns (r: Response)
    modifies service.device
    ensures discovered.Throws? ==> r == Problem(discovered.fault.message) && unchanged(service.device)
    ensures discovered.Returns? && SelectPrinter(discovered.value).None? ==>
      r == Problem(NO_PRINTERS) && unchanged(service.device)
    ensures discovered.Returns? && SelectPrinter(discovered.value).Some? && templateFile.None? ==>
      r == NotFound(TEMPLATE_MISSING) && unchanged(service.device)
    ensures discovered.Returns? && SelectPrinter(discovered.value).Some? && templateFile.Some? ==>
      var run := PrintTemplateRun(service.device.script, Request(templateFile.value, fieldData, 1),
                                  old(service.device.now), old(service.device.connections));
      && r == PrintResponse(SelectPrinter(discovered.value).value, run.result)
      && service.device.log == old(service.device.log) + run.calls
      && service.device.now == run.now && service.device.connections == run.connections
      && service.device.tick == run.tick
  {
    if discovered.Throws? {
      return Problem(discovered.fault.message);
    }
    var printer := SelectPrinter(discovered.value);
    if printer.None? {
      return Problem(NO_PRINTERS);
    }
    if templateFile.None? {
      return NotFound(TEMPLATE_MISSING);
    }
    var outcome := service.PrintTemplateAsync(Request(templateFile.value, fieldData, 1));
    r := PrintResponse(printer.value, outcome);
  }
}
