/**
 * What `PrintTemplateAsync` does, as functions of the scripted device: one
 * attempt (connect, initialize, check the printer is ready, upload the
 * template, validate the fields, submit, poll), the teardown after a failed
 * attempt, and the retry loop around them. The methods in `TemplateService`
 * are proved to behave exactly so; the lemmas here are the loop's promises.
 */
module Attempts {
  import opened Wrappers
  import opened Text
  import opened Sdk
  import opened Polling

  const MAX_RETRIES: nat := 3
  const RETRY_DELAY_MS: nat := 2000
  /** The name the template is stored under on the printer. */
  const TEMPLATE_NAME: string := "template"

  /** The arguments of `PrintTemplateAsync` besides the discovered printer. */
  datatype Request = Request(templateData: string, fieldData: FieldData, copies: int)

  // ---------------------------------------------------------------------------
  // Field validation

  /** `fieldData.ContainsKey(field) && !string.IsNullOrEmpty(fieldData[field])`. */
  predicate Provided(fieldData: FieldData, field: string) {
    field in fieldData && fieldData[field].Some? && fieldData[field].value != ""
  }

  /** Index of the first declared template field that is not provided. */
  function FirstMissingField(fields: seq<string>, fieldData: FieldData): (r: Option<nat>)
    ensures r.None? <==> forall i :: 0 <= i < |fields| ==> Provided(fieldData, fields[i])
    ensures r.Some? ==>
      && r.value < |fields| && !Provided(fieldData, fields[r.value])
      && forall i :: 0 <= i < r.value ==> Provided(fieldData, fields[i])
    decreases |fields|
  {
    if |fields| == 0 then None
    else if !Provided(fieldData, fields[0]) then Some(0)
    else match FirstMissingField(fields[1..], fieldData)
      case None => None
      case Some(j) => Some(j + 1)
  }

  /** The `ArgumentException` for a field without a value. */
  function MissingFieldFault(field: string): Fault {
    Fault(Argument, "Missing or empty value for template field: " + field, None)
  }

  /** What `ValidateFieldData` does: throw for the first field without a value, if any. */
  function Validation(fields: seq<string>, fieldData: FieldData): Reply<()> {
    match FirstMissingField(fields, fieldData)
    case None => Returns(())
    case Some(i) => Throws(MissingFieldFault(fields[i]))
  }

  // ---------------------------------------------------------------------------
  // One attempt

  function ConnectionFault(f: Fault): Fault {
    Fault(Plain, "Failed to create USB connection: " + f.message, Some(f))
  }

  function InitFault(f: Fault): Fault {
    Fault(Plain, "Failed to initialize printer: " + f.message, Some(f))
  }

  function NotReadyFault(status: string): Fault {
    Fault(InvalidOperation, "Printer is not ready. Status: " + status, None)
  }

  predicate IsReady(status: string) {
    status == "ready" || status == "idle"
  }

  /**
   * How an attempt ends: the job printed (its id and last snapshot), or a
   * fault, with the handles that were set when it was thrown (`null` is None).
   */
  datatype AttemptEnd =
    | Printed(jobId: int, status: JobStatusInfo)
    | Failed(fault: Fault, connection: Option<Connection>, printer: Option<CardPrinter>)

  /** An attempt's end, the calls it made, and the clock and status-read count it left. */
  datatype AttemptRun = AttemptRun(end: AttemptEnd, calls: seq<Call>, now: nat, tick: nat)

  /** `run` after the calls `calls`. */
  function After(calls: seq<Call>, run: AttemptRun): AttemptRun {
    run.(calls := calls + run.calls)
  }

  /** A failure with both handles set, before any status read. */
  function Fail(f: Fault, c: Connection, p: CardPrinter, calls: seq<Call>, now: nat): AttemptRun {
    AttemptRun(Failed(f, Some(c), Some(p)), calls, now, 0)
  }

  /**
   * Attempt number `n` (the `n`-th connection), answered by `sc`: obtain
   * and open the connection, each failure wrapped as a USB-connection fault.
   */
  function Attempt(sc: AttemptScript, n: nat, req: Request, now: nat): AttemptRun {
    if sc.connect.Throws? then
      AttemptRun(Failed(ConnectionFault(sc.connect.fault), None, None), [GetConnection], now, 0)
    else
      After([GetConnection], Connected(sc, Connection(n), req, now))
  }

  /** After `GetConnection`: open it, then create the card printer over it. */
  function Connected(sc: AttemptScript, c: Connection, req: Request, now: nat): AttemptRun {
    if sc.open.Throws? then
      AttemptRun(Failed(ConnectionFault(sc.open.fault), Some(c), None), [Open(c)], now, 0)
    else if sc.initialize.Throws? then
      AttemptRun(Failed(InitFault(sc.initialize.fault), Some(c), None), [Open(c), GetInstance(c)], now, 0)
    else
      After([Open(c), GetInstance(c)], OnPrinter(sc, c, CardPrinter(c.id), req, now))
  }

  /**
   * With the card printer: require status `ready` or `idle`, then delete
   * the stored template, a missing file being no failure.
   */
  function OnPrinter(sc: AttemptScript, c: Connection, p: CardPrinter, req: Request, now: nat): AttemptRun {
    if sc.printerStatus.Throws? then
      Fail(sc.printerStatus.fault, c, p, [GetPrinterStatus(p)], now)
    else if !IsReady(sc.printerStatus.value) then
      Fail(NotReadyFault(sc.printerStatus.value), c, p, [GetPrinterStatus(p)], now)
    else if sc.deleteTemplate.Throws? && sc.deleteTemplate.fault.kind != FileNotFound then
      Fail(sc.deleteTemplate.fault, c, p, [GetPrinterStatus(p), DeleteTemplateFileData(p, TEMPLATE_NAME)], now)
    else
      After([GetPrinterStatus(p), DeleteTemplateFileData(p, TEMPLATE_NAME)], Upload(sc, c, p, req, now))
  }

  /** Save the template, read its fields back, and validate the field data against them. */
  function Upload(sc: AttemptScript, c: Connection, p: CardPrinter, req: Request, now: nat): AttemptRun {
    var save := [SaveTemplateFileData(p, TEMPLATE_NAME, req.templateData)];
    var read := save + [GetTemplateDataFields(p, req.templateData)];
    if sc.saveTemplate.Throws? then
      Fail(sc.saveTemplate.fault, c, p, save, now)
    else if sc.templateFields.Throws? then
      Fail(sc.templateFields.fault, c, p, read, now)
    else
      match Validation(sc.templateFields.value, req.fieldData)
      case Throws(f) => Fail(f, c, p, read, now)
      case Returns(_) => After(read, Submit(sc, c, p, req, now))
  }

  /** Generate and print the job, then poll it; a poll that throws fails the attempt. */
  function Submit(sc: AttemptScript, c: Connection, p: CardPrinter, req: Request, now: nat): AttemptRun {
    var generate := [GenerateTemplateJob(p, TEMPLATE_NAME, req.fieldData)];
    if sc.generateJob.Throws? then
      Fail(sc.generateJob.fault, c, p, generate, now)
    else if sc.printTemplate.Throws? then
      Fail(sc.printTemplate.fault, c, p, generate + [PrintTemplate(p, req.copies)], now)
    else
      var jobId := sc.printTemplate.value;
      var poll := Poll(sc, p, jobId, now, 0);
      AttemptRun(if poll.result.Throws? then Failed(poll.result.fault, Some(c), Some(p)) else Printed(jobId, poll.result.value),
                 generate + [PrintTemplate(p, req.copies)] + poll.calls, poll.now, poll.tick)
  }

  /**
   * The attempt after a connection was obtained is the run of `Connected`:
   * `log` before `GetConnection`, `mid` after it, `log'` after the rest.
   */
  lemma AttemptProceeds(sc: AttemptScript, n: nat, req: Request, now: nat, log: seq<Call>, mid: seq<Call>,
                        end: AttemptEnd, log': seq<Call>, now': nat, tick': nat)
    requires sc.connect.Returns? && mid == log + [GetConnection]
    requires var rest := Connected(sc, Connection(n), req, now);
      end == rest.end && log' == mid + rest.calls && now' == rest.now && tick' == rest.tick
    ensures var a := Attempt(sc, n, req, now);
      end == a.end && log' == log + a.calls && now' == a.now && tick' == a.tick
  {
    var rest := Connected(sc, Connection(n), req, now);
    assert log + ([GetConnection] + rest.calls) == log';
  }

  /** With the card printer created, the rest of the attempt is the run of `OnPrinter`. */
  lemma ConnectedProceeds(sc: AttemptScript, c: Connection, req: Request, now: nat, log: seq<Call>, mid: seq<Call>,
                          end: AttemptEnd, log': seq<Call>, now': nat, tick': nat)
    requires sc.open.Returns? && sc.initialize.Returns? && mid == log + [Open(c), GetInstance(c)]
    requires var rest := OnPrinter(sc, c, CardPrinter(c.id), req, now);
      end == rest.end && log' == mid + rest.calls && now' == rest.now && tick' == rest.tick
    ensures var run := Connected(sc, c, req, now);
      end == run.end && log' == log + run.calls && now' == run.now && tick' == run.tick
  {
    var rest := OnPrinter(sc, c, CardPrinter(c.id), req, now);
    assert log + ([Open(c), GetInstance(c)] + rest.calls) == log';
  }

  /** With the printer ready and the old template gone, the rest is the run of `Upload`. */
  lemma OnPrinterProceeds(sc: AttemptScript, c: Connection, p: CardPrinter, req: Request, now: nat,
                          log: seq<Call>, mid: seq<Call>, end: AttemptEnd, log': seq<Call>, now': nat, tick': nat)
    requires sc.printerStatus.Returns? && IsReady(sc.printerStatus.value)
    requires sc.deleteTemplate.Returns? || sc.deleteTemplate.fault.kind == FileNotFound
    requires mid == log + [GetPrinterStatus(p), DeleteTemplateFileData(p, TEMPLATE_NAME)]
    requires var rest := Upload(sc, c, p, req, now);
      end == rest.end && log' == mid + rest.calls && now' == rest.now && tick' == rest.tick
    ensures var run := OnPrinter(sc, c, p, req, now);
      end == run.end && log' == log + run.calls && now' == run.now && tick' == run.tick
  {
    var rest := Upload(sc, c, p, req, now);
    assert log + ([GetPrinterStatus(p), DeleteTemplateFileData(p, TEMPLATE_NAME)] + rest.calls) == log';
  }

  /** With the template saved and the field data valid, the rest is the run of `Submit`. */
  lemma UploadProceeds(sc: AttemptScript, c: Connection, p: CardPrinter, req: Request, now: nat,
                       log: seq<Call>, mid: seq<Call>, end: AttemptEnd, log': seq<Call>, now': nat, tick': nat)
    requires sc.saveTemplate.Returns? && sc.templateFields.Returns?
    requires Validation(sc.templateFields.value, req.fieldData).Returns?
    requires mid == log + [SaveTemplateFileData(p, TEMPLATE_NAME, req.templateData), GetTemplateDataFields(p, req.templateData)]
    requires var rest := Submit(sc, c, p, req, now);
      end == rest.end && log' == mid + rest.calls && now' == rest.now && tick' == rest.tick
    ensures var run := Upload(sc, c, p, req, now);
      end == run.end && log' == log + run.calls && now' == run.now && tick' == run.tick
  {
    var rest := Submit(sc, c, p, req, now);
    assert [SaveTemplateFileData(p, TEMPLATE_NAME, req.templateData)] + [GetTemplateDataFields(p, req.templateData)]
        == [SaveTemplateFileData(p, TEMPLATE_NAME, req.templateData), GetTemplateDataFields(p, req.templateData)];
    assert log + ([SaveTemplateFileData(p, TEMPLATE_NAME, req.templateData), GetTemplateDataFields(p, req.templateData)]
                  + rest.calls) == log';
  }

  // ---------------------------------------------------------------------------
  // Teardown and retries

  /**
   * What `CloseConnection` calls: `Destroy` on the printer, then `Close` on
   * the connection, each skipped when its handle is null.
   */
  function TeardownCalls(c: Option<Connection>, p: Option<CardPrinter>): seq<Call> {
    (if p.Some? then [Destroy(p.value)] else []) + (if c.Some? then [Close(c.value)] else [])
  }

  /**
   * Teardown only destroys and closes; it destroys exactly the printer it was
   * given and closes exactly the connection it was given, each once, and
   * destroys before it closes.
   */
  lemma TeardownShape(c: Option<Connection>, p: Option<CardPrinter>)
    ensures var calls := TeardownCalls(c, p);
      && (forall x :: x in calls ==> x.Destroy? || x.Close?)
      && (forall q :: Destroy(q) in calls <==> p == Some(q))
      && (forall d :: Close(d) in calls <==> c == Some(d))
      && (forall q :: Count(calls, Destroy(q)) == if p == Some(q) then 1 else 0)
      && (forall d :: Count(calls, Close(d)) == if c == Some(d) then 1 else 0)
      && (|calls| == 2 ==> calls[0].Destroy? && calls[1].Close?)
  {
    forall q ensures Count(TeardownCalls(c, p), Destroy(q)) == if p == Some(q) then 1 else 0 {
      TeardownCounts(c, p, Destroy(q));
    }
    forall d ensures Count(TeardownCalls(c, p), Close(d)) == if c == Some(d) then 1 else 0 {
      TeardownCounts(c, p, Close(d));
    }
  }

  /** The exception thrown after the last failed attempt, wrapping its fault. */
  function ExhaustedFault(f: Fault): Fault {
    Fault(Plain, "Error printing template after " + NatToString(MAX_RETRIES) + " attempts: " + f.message, Some(f))
  }

  /** `lastException?.Message` as an interpolated string: empty for null. */
  function MessageOf(f: Option<Fault>): string {
    if f.Some? then f.value.message else ""
  }

  /**
   * The retry loop's result, its calls, how each attempt ended, and the
   * clock, the connection count and the status-read count it leaves.
   */
  datatype RetryRun = RetryRun(result: Reply<(int, JobStatusInfo)>, calls: seq<Call>, attempts: seq<AttemptEnd>,
                               now: nat, connections: nat, tick: nat)

  /**
   * The loop from attempt number `attempt`, `connections` connections
   * having been made before it: the delay (from the second attempt on),
   * the attempt, and on failure the teardown and then the next attempt or,
   * after the last one, the wrapping exception.
   */
  function RetryFrom(script: nat -> AttemptScript, req: Request, attempt: nat, now: nat, connections: nat): RetryRun
    requires 1 <= attempt <= MAX_RETRIES
    decreases MAX_RETRIES - attempt
  {
    var n := connections + 1;
    var a := Attempt(script(n), n, req, RetryStart(attempt, now));
    match a.end
    case Printed(jobId, status) => RetryRun(Returns((jobId, status)), RetryDelay(attempt) + a.calls, [a.end], a.now, n, a.tick)
    case Failed(f, c, p) =>
      var down := RetryDelay(attempt) + a.calls + TeardownCalls(c, p);
      if attempt == MAX_RETRIES then
        RetryRun(Throws(ExhaustedFault(f)), down, [a.end], a.now, n, a.tick)
      else
        var rest := RetryFrom(script, req, attempt + 1, a.now, n);
        RetryRun(rest.result, down + rest.calls, [a.end] + rest.attempts, rest.now, rest.connections, rest.tick)
  }

  /** The delay before attempt number `attempt`: none before the first. */
  function RetryDelay(attempt: nat): seq<Call> {
    if attempt > 1 then [Delay(RETRY_DELAY_MS)] else []
  }

  /** The clock when attempt number `attempt` connects, the loop being at `now`. */
  function RetryStart(attempt: nat, now: nat): nat {
    if attempt > 1 then now + RETRY_DELAY_MS else now
  }

  /** The whole of `PrintTemplateAsync` after its argument checks. */
  function PrintTemplateRun(script: nat -> AttemptScript, req: Request, now: nat, connections: nat): RetryRun {
    RetryFrom(script, req, 1, now, connections)
  }

  // ---------------------------------------------------------------------------
  // What one attempt calls

  /**
   * A call an attempt makes after `GetConnection`: it never connects again,
   * tears a handle down, or sleeps the retry delay.
   */
  predicate InAttempt(x: Call) {
    !x.GetConnection? && !x.Close? && !x.Destroy? && x != Delay(RETRY_DELAY_MS)
  }

  ghost predicate QuietCalls(calls: seq<Call>) {
    forall i :: 0 <= i < |calls| ==> InAttempt(calls[i])
  }

  /** An attempt's calls: one `GetConnection`, first, and then only calls of the attempt itself. */
  ghost predicate AttemptCallsOk(calls: seq<Call>) {
    |calls| > 0 && calls[0] == GetConnection && QuietCalls(calls[1..])
  }

  lemma QuietAppend(a: seq<Call>, b: seq<Call>)
    requires QuietCalls(a) && QuietCalls(b)
    ensures QuietCalls(a + b)
  {
    assert forall i :: |a| <= i < |a + b| ==> (a + b)[i] == b[i - |a|];
  }

  lemma PollIsQuiet(calls: seq<Call>, p: CardPrinter, jobId: int)
    requires PollCallsShape(calls, p, jobId)
    ensures QuietCalls(calls)
    ensures forall i :: 0 <= i < |calls| ==> !calls[i].PrintTemplate? && !calls[i].GenerateTemplateJob?
  {
  }

  lemma SubmitQuiet(sc: AttemptScript, c: Connection, p: CardPrinter, req: Request, now: nat)
    ensures QuietCalls(Submit(sc, c, p, req, now).calls)
  {
    if sc.generateJob.Returns? && sc.printTemplate.Returns? {
      var poll := Poll(sc, p, sc.printTemplate.value, now, 0);
      PollCalls(sc, p, sc.printTemplate.value, now, now, 0, FeedTimer(false, now));
      PollIsQuiet(poll.calls, p, sc.printTemplate.value);
      QuietAppend([GenerateTemplateJob(p, TEMPLATE_NAME, req.fieldData), PrintTemplate(p, req.copies)], poll.calls);
    }
  }

  lemma UploadQuiet(sc: AttemptScript, c: Connection, p: CardPrinter, req: Request, now: nat)
    ensures QuietCalls(Upload(sc, c, p, req, now).calls)
  {
    SubmitQuiet(sc, c, p, req, now);
    QuietAppend([SaveTemplateFileData(p, TEMPLATE_NAME, req.templateData), GetTemplateDataFields(p, req.templateData)],
                Submit(sc, c, p, req, now).calls);
  }

  lemma OnPrinterQuiet(sc: AttemptScript, c: Connection, p: CardPrinter, req: Request, now: nat)
    ensures QuietCalls(OnPrinter(sc, c, p, req, now).calls)
  {
    UploadQuiet(sc, c, p, req, now);
    QuietAppend([GetPrinterStatus(p), DeleteTemplateFileData(p, TEMPLATE_NAME)], Upload(sc, c, p, req, now).calls);
  }

  lemma ConnectedQuiet(sc: AttemptScript, c: Connection, req: Request, now: nat)
    ensures QuietCalls(Connected(sc, c, req, now).calls)
  {
    OnPrinterQuiet(sc, c, CardPrinter(c.id), req, now);
    QuietAppend([Open(c), GetInstance(c)], OnPrinter(sc, c, CardPrinter(c.id), req, now).calls);
  }

  /**
   * An attempt connects once, as its first call, and then never connects
   * again, never destroys or closes a handle and never sleeps the retry
   * delay: teardown and delays belong to the loop around it.
   */
  lemma AttemptCalls(sc: AttemptScript, n: nat, req: Request, now: nat)
    ensures AttemptCallsOk(Attempt(sc, n, req, now).calls)
  {
    var run := Attempt(sc, n, req, now);
    if sc.connect.Returns? {
      ConnectedQuiet(sc, Connection(n), req, now);
      assert run.calls[1..] == Connected(sc, Connection(n), req, now).calls;
    }
  }

  lemma AttemptCallCounts(calls: seq<Call>, x: Call)
    requires AttemptCallsOk(calls)
    ensures Count(calls, GetConnection) == 1
    ensures !x.GetConnection? && !InAttempt(x) ==> Count(calls, x) == 0
  {
    assert calls == [GetConnection] + calls[1..];
    CountAppend([GetConnection], calls[1..], GetConnection);
    CountAppend([GetConnection], calls[1..], x);
    assert GetConnection !in calls[1..];
  }

  // ---------------------------------------------------------------------------
  // What one attempt leaves

  /** The handles a failed attempt number `n` hands to the teardown are its own. */
  predicate HandlesOf(e: AttemptEnd, n: nat) {
    e.Failed? ==>
      && (e.connection.Some? ==> e.connection.value == Connection(n))
      && (e.printer.Some? ==> e.printer.value == CardPrinter(n))
  }

  /**
   * A failed attempt holds the connection once `GetConnection` returned it
   * and the card printer once `GetInstance` returned it, and they are the
   * ones of attempt `n`; so its teardown skips exactly the handles never
   * obtained.
   */
  lemma AttemptHandles(sc: AttemptScript, n: nat, req: Request, now: nat)
    ensures var e := Attempt(sc, n, req, now).end;
      && HandlesOf(e, n)
      && (e.Failed? ==>
            && (e.connection.None? <==> sc.connect.Throws?)
            && (e.printer.None? <==> sc.connect.Throws? || sc.open.Throws? || sc.initialize.Throws?))
  {
    if sc.connect.Returns? && sc.open.Returns? && sc.initialize.Returns? {
      var c, p := Connection(n), CardPrinter(n);
      assert Upload(sc, c, p, req, now).end.Failed? ==> Upload(sc, c, p, req, now).end.connection == Some(c);
    }
  }

  /** The printer is ready, the stored template is out of the way, and every field has a value. */
  ghost predicate ReadyToSubmit(sc: AttemptScript, req: Request) {
    && sc.connect.Returns? && sc.open.Returns? && sc.initialize.Returns?
    && sc.printerStatus.Returns? && IsReady(sc.printerStatus.value)
    && (sc.deleteTemplate.Returns? || sc.deleteTemplate.fault.kind == FileNotFound)
    && sc.saveTemplate.Returns? && sc.templateFields.Returns?
    && (forall i :: 0 <= i < |sc.templateFields.value| ==> Provided(req.fieldData, sc.templateFields.value[i]))
    && sc.generateJob.Returns?
  }

  ghost predicate SubmitsJob(calls: seq<Call>) {
    exists i :: 0 <= i < |calls| && calls[i].PrintTemplate?
  }

  lemma SubmitSubmits(sc: AttemptScript, c: Connection, p: CardPrinter, req: Request, now: nat)
    ensures SubmitsJob(Submit(sc, c, p, req, now).calls) <==> sc.generateJob.Returns?
  {
    var run := Submit(sc, c, p, req, now);
    if sc.generateJob.Returns? {
      assert run.calls[1].PrintTemplate?;
    } else {
      assert run.calls == [GenerateTemplateJob(p, TEMPLATE_NAME, req.fieldData)];
    }
  }

  lemma UploadSubmits(sc: AttemptScript, c: Connection, p: CardPrinter, req: Request, now: nat)
    ensures SubmitsJob(Upload(sc, c, p, req, now).calls) <==>
      && sc.saveTemplate.Returns? && sc.templateFields.Returns?
      && Validation(sc.templateFields.value, req.fieldData).Returns? && sc.generateJob.Returns?
  {
    var save := [SaveTemplateFileData(p, TEMPLATE_NAME, req.templateData)];
    var read := save + [GetTemplateDataFields(p, req.templateData)];
    var run := Upload(sc, c, p, req, now);
    if sc.saveTemplate.Throws? {
      assert run.calls == save;
    } else if sc.templateFields.Throws? || Validation(sc.templateFields.value, req.fieldData).Throws? {
      assert run.calls == read;
    } else {
      SubmitSubmits(sc, c, p, req, now);
      var sub := Submit(sc, c, p, req, now).calls;
      assert run.calls == read + sub;
      assert forall i :: 2 <= i < |read + sub| ==> (read + sub)[i] == sub[i - 2];
      assert SubmitsJob(sub) ==> SubmitsJob(read + sub) by {
        if SubmitsJob(sub) {
          var i :| 0 <= i < |sub| && sub[i].PrintTemplate?;
          assert (read + sub)[i + 2] == sub[i];
        }
      }
      assert SubmitsJob(read + sub) ==> SubmitsJob(sub) by {
        if SubmitsJob(read + sub) {
          var i :| 0 <= i < |read + sub| && (read + sub)[i].PrintTemplate?;
          assert sub[i - 2] == (read + sub)[i];
        }
      }
    }
  }

  lemma OnPrinterSubmits(sc: AttemptScript, c: Connection, p: CardPrinter, req: Request, now: nat)
    ensures SubmitsJob(OnPrinter(sc, c, p, req, now).calls) <==>
      && sc.printerStatus.Returns? && IsReady(sc.printerStatus.value)
      && (sc.deleteTemplate.Returns? || sc.deleteTemplate.fault.kind == FileNotFound)
      && SubmitsJob(Upload(sc, c, p, req, now).calls)
  {
    var pre := [GetPrinterStatus(p), DeleteTemplateFileData(p, TEMPLATE_NAME)];
    var up := Upload(sc, c, p, req, now).calls;
    assert forall i :: 2 <= i < |pre + up| ==> (pre + up)[i] == up[i - 2];
    assert SubmitsJob(up) ==> SubmitsJob(pre + up) by {
      if SubmitsJob(up) {
        var i :| 0 <= i < |up| && up[i].PrintTemplate?;
        assert (pre + up)[i + 2] == up[i];
      }
    }
  }

  lemma ConnectedSubmits(sc: AttemptScript, c: Connection, req: Request, now: nat)
    ensures SubmitsJob(Connected(sc, c, req, now).calls) <==>
      sc.open.Returns? && sc.initialize.Returns? && SubmitsJob(OnPrinter(sc, c, CardPrinter(c.id), req, now).calls)
  {
    var pre := [Open(c), GetInstance(c)];
    var on := OnPrinter(sc, c, CardPrinter(c.id), req, now).calls;
    assert forall i :: 2 <= i < |pre + on| ==> (pre + on)[i] == on[i - 2];
    assert SubmitsJob(on) ==> SubmitsJob(pre + on) by {
      if SubmitsJob(on) {
        var i :| 0 <= i < |on| && on[i].PrintTemplate?;
        assert (pre + on)[i + 2] == on[i];
      }
    }
  }

  /**
   * An attempt submits a job exactly when the connection, the printer and
   * the upload all worked, the printer reported `ready` or `idle`, every
   * declared field has a non-empty value, and the job was generated.
   */
  lemma AttemptSubmitsIff(sc: AttemptScript, n: nat, req: Request, now: nat)
    ensures SubmitsJob(Attempt(sc, n, req, now).calls) <==> ReadyToSubmit(sc, req)
  {
    var run := Attempt(sc, n, req, now);
    var c := Connection(n);
    UploadSubmits(sc, c, CardPrinter(n), req, now);
    OnPrinterSubmits(sc, c, CardPrinter(n), req, now);
    ConnectedSubmits(sc, c, req, now);
    if sc.connect.Returns? {
      var rest := Connected(sc, c, req, now).calls;
      assert forall i :: 1 <= i < |run.calls| ==> run.calls[i] == rest[i - 1];
      assert SubmitsJob(rest) ==> SubmitsJob(run.calls) by {
        if SubmitsJob(rest) {
          var i :| 0 <= i < |rest| && rest[i].PrintTemplate?;
          assert run.calls[i + 1] == rest[i];
        }
      }
    } else {
      assert run.calls == [GetConnection];
    }
  }

  /**
   * A printer that reports anything but `ready` or `idle` fails the
   * attempt right after the status query, before the template is touched.
   */
  lemma NotReadyFails(sc: AttemptScript, n: nat, req: Request, now: nat)
    requires sc.connect.Returns? && sc.open.Returns? && sc.initialize.Returns?
    requires sc.printerStatus.Returns? && !IsReady(sc.printerStatus.value)
    ensures var c, p := Connection(n), CardPrinter(n);
      Attempt(sc, n, req, now) == AttemptRun(Failed(NotReadyFault(sc.printerStatus.value), Some(c), Some(p)),
                                             [GetConnection, Open(c), GetInstance(c), GetPrinterStatus(p)], now, 0)
  {
  }

  /**
   * Validation sees the template only after it was saved: an attempt whose
   * field data lacks a declared field has saved the template and read its
   * fields, fails with that field's `ArgumentException`, and neither
   * generates nor prints a job.
   */
  lemma MissingFieldFails(sc: AttemptScript, n: nat, req: Request, now: nat, i: nat)
    requires sc.connect.Returns? && sc.open.Returns? && sc.initialize.Returns?
    requires sc.printerStatus.Returns? && IsReady(sc.printerStatus.value)
    requires sc.deleteTemplate.Returns? || sc.deleteTemplate.fault.kind == FileNotFound
    requires sc.saveTemplate.Returns? && sc.templateFields.Returns?
    requires FirstMissingField(sc.templateFields.value, req.fieldData) == Some(i)
    ensures var c, p := Connection(n), CardPrinter(n);
      Attempt(sc, n, req, now) == AttemptRun(Failed(MissingFieldFault(sc.templateFields.value[i]), Some(c), Some(p)),
                                             [GetConnection, Open(c), GetInstance(c), GetPrinterStatus(p),
                                              DeleteTemplateFileData(p, TEMPLATE_NAME),
                                              SaveTemplateFileData(p, TEMPLATE_NAME, req.templateData),
                                              GetTemplateDataFields(p, req.templateData)], now, 0)
  {
  }

  /**
   * An attempt prints exactly when it submitted a job whose poll returned a
   * snapshot; it returns that job's id and that snapshot.
   */
  lemma AttemptPrints(sc: AttemptScript, n: nat, req: Request, now: nat)
    ensures var e := Attempt(sc, n, req, now).end;
      e.Printed? <==>
        && ReadyToSubmit(sc, req) && sc.printTemplate.Returns?
        && Poll(sc, CardPrinter(n), sc.printTemplate.value, now, 0).result.Returns?
    ensures var e := Attempt(sc, n, req, now).end;
      e.Printed? ==>
        && e.jobId == sc.printTemplate.value
        && Returns(e.status) == Poll(sc, CardPrinter(n), sc.printTemplate.value, now, 0).result
  {
    var c, p := Connection(n), CardPrinter(n);
    if ReadyToSubmit(sc, req) {
      assert Validation(sc.templateFields.value, req.fieldData).Returns?;
    } else if sc.connect.Returns? && sc.open.Returns? && sc.initialize.Returns? && sc.printerStatus.Returns?
           && IsReady(sc.printerStatus.value) && (sc.deleteTemplate.Returns? || sc.deleteTemplate.fault.kind == FileNotFound)
           && sc.saveTemplate.Returns? && sc.templateFields.Returns? && sc.generateJob.Returns? {
      assert Validation(sc.templateFields.value, req.fieldData).Throws?;
    }
  }

  // ---------------------------------------------------------------------------
  // What the retry loop does

  lemma TeardownCounts(c: Option<Connection>, p: Option<CardPrinter>, x: Call)
    ensures Count(TeardownCalls(c, p), x) ==
      if (c.Some? && x == Close(c.value)) || (p.Some? && x == Destroy(p.value)) then 1 else 0
  {
    var pd: seq<Call> := if p.Some? then [Destroy(p.value)] else [];
    var cc: seq<Call> := if c.Some? then [Close(c.value)] else [];
    CountAppend(pd, cc, x);
    assert TeardownCalls(c, p) == pd + cc;
  }

  lemma CountConcat(a: seq<Call>, b: seq<Call>, c: seq<Call>, d: seq<Call>, x: Call)
    ensures Count(a + b + c + d, x) == Count(a, x) + Count(b, x) + Count(c, x) + Count(d, x)
  {
    CountAppend(a + b + c, d, x);
    CountAppend(a + b, c, x);
    CountAppend(a, b, x);
  }

  /** Every handle torn down in `calls` belongs to a connection made after the first `m`. */
  ghost predicate TeardownAbove(calls: seq<Call>, m: nat) {
    forall i :: 0 <= i < |calls| ==>
      && (calls[i].Close? ==> calls[i].connection.id > m)
      && (calls[i].Destroy? ==> calls[i].printer.id > m)
  }

  lemma TeardownAboveConcat(a: seq<Call>, b: seq<Call>, c: seq<Call>, d: seq<Call>, m: nat)
    requires TeardownAbove(a, m) && TeardownAbove(b, m) && TeardownAbove(c, m) && TeardownAbove(d, m)
    ensures TeardownAbove(a + b + c + d, m)
  {
    var all := a + b + c + d;
    assert forall i :: 0 <= i < |all| ==>
      all[i] == if i < |a| then a[i] else if i < |a| + |b| then b[i - |a|] else if i < |a| + |b| + |c| then c[i - |a| - |b|] else d[i - |a| - |b| - |c|];
  }

  lemma TeardownAboveNone(calls: seq<Call>, m: nat, j: nat)
    requires TeardownAbove(calls, m) && j <= m
    ensures Count(calls, Close(Connection(j))) == 0 && Count(calls, Destroy(CardPrinter(j))) == 0
  {
    assert Close(Connection(j)) !in calls;
    assert Destroy(CardPrinter(j)) !in calls;
  }

  /**
   * What the loop from attempt number `attempt` promises about how its
   * attempts ended: at most the remaining number of them, all but the last
   * failed, a result exactly when the last printed (its job id and
   * snapshot), and otherwise the wrapping exception after the last allowed
   * attempt.
   */
  ghost predicate RetryShaped(run: RetryRun, attempt: nat, connections: nat) {
    var m := |run.attempts|;
    && 1 <= m <= MAX_RETRIES + 1 - attempt
    && run.connections == connections + m
    && (forall i :: 0 <= i < m - 1 ==> run.attempts[i].Failed?)
    && (run.attempts[m - 1].Printed? ==> run.result == Returns((run.attempts[m - 1].jobId, run.attempts[m - 1].status)))
    && (run.attempts[m - 1].Failed? ==>
          m == MAX_RETRIES + 1 - attempt && run.result == Throws(ExhaustedFault(run.attempts[m - 1].fault)))
  }

  /** One connection per attempt, and a retry delay before each but the loop's first. */
  ghost predicate RetryCounted(run: RetryRun, attempt: nat) {
    && run.calls != [] && run.calls[0] == (if attempt > 1 then Delay(RETRY_DELAY_MS) else GetConnection)
    && Count(run.calls, GetConnection) == |run.attempts|
    && Count(run.calls, Delay(RETRY_DELAY_MS)) == |run.attempts| - (if attempt > 1 then 0 else 1)
  }

  /**
   * Attempt `i` of the loop used connection `connections + i + 1`; each of
   * its handles is torn down exactly once if it failed holding it, and never
   * otherwise.
   */
  ghost predicate TornDown(run: RetryRun, connections: nat) {
    && TeardownAbove(run.calls, connections)
    && forall i :: 0 <= i < |run.attempts| ==>
      var e, n := run.attempts[i], connections + i + 1;
      && HandlesOf(e, n)
      && Count(run.calls, Close(Connection(n))) == (if e.Failed? && e.connection.Some? then 1 else 0)
      && Count(run.calls, Destroy(CardPrinter(n))) == (if e.Failed? && e.printer.Some? then 1 else 0)
  }

  /** What the attempt of the loop's first step leaves about its own calls. */
  lemma OneAttempt(script: nat -> AttemptScript, req: Request, attempt: nat, now: nat, connections: nat)
    ensures var n := connections + 1;
      AttemptFacts(Attempt(script(n), n, req, RetryStart(attempt, now)), n)
  {
    var n := connections + 1;
    var a := Attempt(script(n), n, req, RetryStart(attempt, now));
    AttemptCalls(script(n), n, req, RetryStart(attempt, now));
    AttemptHandles(script(n), n, req, RetryStart(attempt, now));
    AttemptCallCounts(a.calls, Delay(RETRY_DELAY_MS));
    forall j ensures Count(a.calls, Close(Connection(j))) == 0 && Count(a.calls, Destroy(CardPrinter(j))) == 0 {
      AttemptCallCounts(a.calls, Close(Connection(j)));
      AttemptCallCounts(a.calls, Destroy(CardPrinter(j)));
    }
    assert forall i :: 1 <= i < |a.calls| ==> a.calls[i] == a.calls[1..][i - 1];
  }

  lemma DelayFacts(attempt: nat, m: nat)
    ensures TeardownAbove(RetryDelay(attempt), m)
    ensures Count(RetryDelay(attempt), GetConnection) == 0
    ensures Count(RetryDelay(attempt), Delay(RETRY_DELAY_MS)) == if attempt > 1 then 1 else 0
    ensures forall j :: Count(RetryDelay(attempt), Close(Connection(j))) == 0 && Count(RetryDelay(attempt), Destroy(CardPrinter(j))) == 0
  {
  }

  lemma TeardownFacts(e: AttemptEnd, n: nat)
    requires e.Failed? && HandlesOf(e, n) && n > 0
    ensures TeardownAbove(TeardownCalls(e.connection, e.printer), n - 1)
    ensures Count(TeardownCalls(e.connection, e.printer), GetConnection) == 0
    ensures Count(TeardownCalls(e.connection, e.printer), Delay(RETRY_DELAY_MS)) == 0
    ensures forall j :: j != n ==> Count(TeardownCalls(e.connection, e.printer), Close(Connection(j))) == 0
    ensures forall j :: j != n ==> Count(TeardownCalls(e.connection, e.printer), Destroy(CardPrinter(j))) == 0
    ensures Count(TeardownCalls(e.connection, e.printer), Close(Connection(n))) == if e.connection.Some? then 1 else 0
    ensures Count(TeardownCalls(e.connection, e.printer), Destroy(CardPrinter(n))) == if e.printer.Some? then 1 else 0
  {
    TeardownCounts(e.connection, e.printer, GetConnection);
    TeardownCounts(e.connection, e.printer, Delay(RETRY_DELAY_MS));
    TeardownCounts(e.connection, e.printer, Close(Connection(n)));
    TeardownCounts(e.connection, e.printer, Destroy(CardPrinter(n)));
    forall j | j != n
      ensures Count(TeardownCalls(e.connection, e.printer), Close(Connection(j))) == 0
      ensures Count(TeardownCalls(e.connection, e.printer), Destroy(CardPrinter(j))) == 0
    {
      TeardownCounts(e.connection, e.printer, Close(Connection(j)));
      TeardownCounts(e.connection, e.printer, Destroy(CardPrinter(j)));
    }
  }

  /** The loop's step when its first attempt is its last: it printed, or no attempt is left. */
  lemma RetryFromLast(script: nat -> AttemptScript, req: Request, attempt: nat, now: nat, connections: nat)
    requires 1 <= attempt <= MAX_RETRIES
    requires var n := connections + 1;
      Attempt(script(n), n, req, RetryStart(attempt, now)).end.Printed? || attempt == MAX_RETRIES
    ensures var n := connections + 1;
      var a := Attempt(script(n), n, req, RetryStart(attempt, now));
      RetryFrom(script, req, attempt, now, connections) == LastRun(a, attempt, n)
  {
  }

  /** The run of a loop whose attempt `a`, with connection `n`, is its last. */
  function LastRun(a: AttemptRun, attempt: nat, n: nat): RetryRun {
    match a.end
    case Printed(jobId, status) => RetryRun(Returns((jobId, status)), RetryDelay(attempt) + a.calls, [a.end], a.now, n, a.tick)
    case Failed(f, c, p) =>
      RetryRun(Throws(ExhaustedFault(f)), RetryDelay(attempt) + a.calls + TeardownCalls(c, p), [a.end], a.now, n, a.tick)
  }

  /** The run of a loop whose failed attempt `a` is followed by the loop `rest`. */
  function NextRun(a: AttemptRun, attempt: nat, rest: RetryRun): RetryRun
    requires a.end.Failed?
  {
    RetryRun(rest.result, RetryDelay(attempt) + a.calls + TeardownCalls(a.end.connection, a.end.printer) + rest.calls,
             [a.end] + rest.attempts, rest.now, rest.connections, rest.tick)
  }

  /** The loop's step when its first attempt failed and attempts are left. */
  lemma RetryFromNext(script: nat -> AttemptScript, req: Request, attempt: nat, now: nat, connections: nat)
    requires 1 <= attempt < MAX_RETRIES
    requires var n := connections + 1;
      Attempt(script(n), n, req, RetryStart(attempt, now)).end.Failed?
    ensures var n := connections + 1;
      var a := Attempt(script(n), n, req, RetryStart(attempt, now));
      RetryFrom(script, req, attempt, now, connections) == NextRun(a, attempt, RetryFrom(script, req, attempt + 1, a.now, n))
  {
  }

  /** The facts `OneAttempt` proves of the first attempt, about the attempt's run alone. */
  ghost predicate AttemptFacts(a: AttemptRun, n: nat) {
    && AttemptCallsOk(a.calls) && HandlesOf(a.end, n) && n > 0
    && Count(a.calls, GetConnection) == 1
    && Count(a.calls, Delay(RETRY_DELAY_MS)) == 0
    && (forall j :: Count(a.calls, Close(Connection(j))) == 0 && Count(a.calls, Destroy(CardPrinter(j))) == 0)
    && TeardownAbove(a.calls, n - 1)
  }

  /** `LastRun` with its teardown written out: none after the attempt that printed. */
  lemma LastRunCalls(a: AttemptRun, attempt: nat, n: nat)
    ensures var td := if a.end.Failed? then TeardownCalls(a.end.connection, a.end.printer) else [];
      LastRun(a, attempt, n).calls == RetryDelay(attempt) + a.calls + td + []
  {
  }

  lemma LastRunCounted(a: AttemptRun, attempt: nat, connections: nat)
    requires AttemptFacts(a, connections + 1)
    ensures RetryCounted(LastRun(a, attempt, connections + 1), attempt)
  {
    var run := LastRun(a, attempt, connections + 1);
    var d := RetryDelay(attempt);
    var td: seq<Call> := if a.end.Failed? then TeardownCalls(a.end.connection, a.end.printer) else [];
    LastRunCalls(a, attempt, connections + 1);
    DelayFacts(attempt, connections);
    if a.end.Failed? {
      TeardownFacts(a.end, connections + 1);
    }
    CountConcat(d, a.calls, td, [], GetConnection);
    CountConcat(d, a.calls, td, [], Delay(RETRY_DELAY_MS));
    assert run.calls[0] == (d + a.calls)[0];
  }

  lemma LastRunTornDown(a: AttemptRun, attempt: nat, connections: nat)
    requires AttemptFacts(a, connections + 1)
    ensures TornDown(LastRun(a, attempt, connections + 1), connections)
  {
    var n := connections + 1;
    var run := LastRun(a, attempt, n);
    var d := RetryDelay(attempt);
    var td: seq<Call> := if a.end.Failed? then TeardownCalls(a.end.connection, a.end.printer) else [];
    LastRunCalls(a, attempt, n);
    DelayFacts(attempt, connections);
    if a.end.Failed? {
      TeardownFacts(a.end, n);
    }
    TeardownAboveConcat(d, a.calls, td, [], connections);
    CountConcat(d, a.calls, td, [], Close(Connection(n)));
    CountConcat(d, a.calls, td, [], Destroy(CardPrinter(n)));
    assert run.attempts == [a.end];
    TornDownSingle(run, connections);
  }

  lemma TornDownSingle(run: RetryRun, connections: nat)
    requires |run.attempts| == 1 && TeardownAbove(run.calls, connections)
    requires var e, n := run.attempts[0], connections + 1;
      && HandlesOf(e, n)
      && Count(run.calls, Close(Connection(n))) == (if e.Failed? && e.connection.Some? then 1 else 0)
      && Count(run.calls, Destroy(CardPrinter(n))) == (if e.Failed? && e.printer.Some? then 1 else 0)
    ensures TornDown(run, connections)
  {
  }

  lemma TornDownCons(run: RetryRun, rest: RetryRun, connections: nat)
    requires |run.attempts| == |rest.attempts| + 1 && run.attempts[1..] == rest.attempts
    requires TeardownAbove(run.calls, connections) && TornDown(rest, connections + 1)
    requires var e, n := run.attempts[0], connections + 1;
      && HandlesOf(e, n)
      && Count(run.calls, Close(Connection(n))) == (if e.Failed? && e.connection.Some? then 1 else 0)
      && Count(run.calls, Destroy(CardPrinter(n))) == (if e.Failed? && e.printer.Some? then 1 else 0)
    requires forall m :: m > connections + 1 ==>
      && Count(run.calls, Close(Connection(m))) == Count(rest.calls, Close(Connection(m)))
      && Count(run.calls, Destroy(CardPrinter(m))) == Count(rest.calls, Destroy(CardPrinter(m)))
    ensures TornDown(run, connections)
  {
    forall i | 1 <= i < |run.attempts|
      ensures var e, m := run.attempts[i], connections + i + 1;
        && HandlesOf(e, m)
        && Count(run.calls, Close(Connection(m))) == (if e.Failed? && e.connection.Some? then 1 else 0)
        && Count(run.calls, Destroy(CardPrinter(m))) == (if e.Failed? && e.printer.Some? then 1 else 0)
    {
      assert run.attempts[i] == rest.attempts[i - 1];
      assert connections + i + 1 == (connections + 1) + (i - 1) + 1;
    }
  }

  lemma LastRunShaped(a: AttemptRun, attempt: nat, connections: nat)
    requires 1 <= attempt <= MAX_RETRIES
    requires a.end.Printed? || attempt == MAX_RETRIES
    ensures RetryShaped(LastRun(a, attempt, connections + 1), attempt, connections)
  {
  }

  lemma NextRunShaped(a: AttemptRun, attempt: nat, connections: nat, rest: RetryRun)
    requires 1 <= attempt < MAX_RETRIES && a.end.Failed?
    requires RetryShaped(rest, attempt + 1, connections + 1)
    ensures RetryShaped(NextRun(a, attempt, rest), attempt, connections)
  {
    var run := NextRun(a, attempt, rest);
    assert forall i :: 1 <= i < |run.attempts| ==> run.attempts[i] == rest.attempts[i - 1];
  }

  lemma NextRunCounted(a: AttemptRun, attempt: nat, connections: nat, rest: RetryRun)
    requires 1 <= attempt < MAX_RETRIES && a.end.Failed? && AttemptFacts(a, connections + 1)
    requires RetryCounted(rest, attempt + 1)
    ensures RetryCounted(NextRun(a, attempt, rest), attempt)
  {
    var run := NextRun(a, attempt, rest);
    var d := RetryDelay(attempt);
    var td := TeardownCalls(a.end.connection, a.end.printer);
    DelayFacts(attempt, connections);
    TeardownFacts(a.end, connections + 1);
    CountConcat(d, a.calls, td, rest.calls, GetConnection);
    CountConcat(d, a.calls, td, rest.calls, Delay(RETRY_DELAY_MS));
    assert run.calls[0] == (d + a.calls)[0];
  }

  /** The teardown counts of `NextRun` for its first attempt. */
  lemma NextRunFirstTornDown(a: AttemptRun, attempt: nat, connections: nat, rest: RetryRun)
    requires a.end.Failed? && AttemptFacts(a, connections + 1)
    requires TeardownAbove(rest.calls, connections + 1)
    ensures var run, n := NextRun(a, attempt, rest), connections + 1;
      && Count(run.calls, Close(Connection(n))) == (if a.end.connection.Some? then 1 else 0)
      && Count(run.calls, Destroy(CardPrinter(n))) == (if a.end.printer.Some? then 1 else 0)
  {
    var n := connections + 1;
    var d := RetryDelay(attempt);
    var td := TeardownCalls(a.end.connection, a.end.printer);
    DelayFacts(attempt, connections);
    TeardownFacts(a.end, n);
    TeardownAboveNone(rest.calls, n, n);
    CountConcat(d, a.calls, td, rest.calls, Close(Connection(n)));
    CountConcat(d, a.calls, td, rest.calls, Destroy(CardPrinter(n)));
  }

  /** The teardown counts of `NextRun` for a later attempt are those of `rest`. */
  lemma NextRunLaterTornDown(a: AttemptRun, attempt: nat, connections: nat, rest: RetryRun, m: nat)
    requires a.end.Failed? && AttemptFacts(a, connections + 1) && m != connections + 1
    ensures var run := NextRun(a, attempt, rest);
      && Count(run.calls, Close(Connection(m))) == Count(rest.calls, Close(Connection(m)))
      && Count(run.calls, Destroy(CardPrinter(m))) == Count(rest.calls, Destroy(CardPrinter(m)))
  {
    var d := RetryDelay(attempt);
    var td := TeardownCalls(a.end.connection, a.end.printer);
    DelayFacts(attempt, connections);
    TeardownFacts(a.end, connections + 1);
    CountConcat(d, a.calls, td, rest.calls, Close(Connection(m)));
    CountConcat(d, a.calls, td, rest.calls, Destroy(CardPrinter(m)));
  }

  lemma NextRunTornDown(a: AttemptRun, attempt: nat, connections: nat, rest: RetryRun)
    requires 1 <= attempt < MAX_RETRIES && a.end.Failed? && AttemptFacts(a, connections + 1)
    requires TornDown(rest, connections + 1)
    ensures TornDown(NextRun(a, attempt, rest), connections)
  {
    var n := connections + 1;
    var run := NextRun(a, attempt, rest);
    DelayFacts(attempt, connections);
    TeardownFacts(a.end, n);
    assert TeardownAbove(rest.calls, connections);
    TeardownAboveConcat(RetryDelay(attempt), a.calls, TeardownCalls(a.end.connection, a.end.printer), rest.calls, connections);
    NextRunFirstTornDown(a, attempt, connections, rest);
    forall m | m > n
      ensures Count(run.calls, Close(Connection(m))) == Count(rest.calls, Close(Connection(m)))
      ensures Count(run.calls, Destroy(CardPrinter(m))) == Count(rest.calls, Destroy(CardPrinter(m)))
    {
      NextRunLaterTornDown(a, attempt, connections, rest, m);
    }
    assert run.attempts[1..] == rest.attempts;
    TornDownCons(run, rest, connections);
  }

  lemma ShapedLast(script: nat -> AttemptScript, req: Request, attempt: nat, now: nat, connections: nat)
    requires 1 <= attempt <= MAX_RETRIES
    requires var n := connections + 1;
      Attempt(script(n), n, req, RetryStart(attempt, now)).end.Printed? || attempt == MAX_RETRIES
    ensures RetryShaped(RetryFrom(script, req, attempt, now, connections), attempt, connections)
  {
    var n := connections + 1;
    RetryFromLast(script, req, attempt, now, connections);
    LastRunShaped(Attempt(script(n), n, req, RetryStart(attempt, now)), attempt, connections);
  }

  lemma ShapedNext(script: nat -> AttemptScript, req: Request, attempt: nat, now: nat, connections: nat)
    requires 1 <= attempt < MAX_RETRIES
    requires var n := connections + 1;
      Attempt(script(n), n, req, RetryStart(attempt, now)).end.Failed?
    requires var n := connections + 1;
      RetryShaped(RetryFrom(script, req, attempt + 1, Attempt(script(n), n, req, RetryStart(attempt, now)).now, n), attempt + 1, n)
    ensures RetryShaped(RetryFrom(script, req, attempt, now, connections), attempt, connections)
  {
    var n := connections + 1;
    var a := Attempt(script(n), n, req, RetryStart(attempt, now));
    RetryFromNext(script, req, attempt, now, connections);
    NextRunShaped(a, attempt, connections, RetryFrom(script, req, attempt + 1, a.now, n));
  }

  lemma {:induction false} ShapedFrom(script: nat -> AttemptScript, req: Request, attempt: nat, now: nat, connections: nat)
    requires 1 <= attempt <= MAX_RETRIES
    ensures RetryShaped(RetryFrom(script, req, attempt, now, connections), attempt, connections)
    decreases MAX_RETRIES - attempt
  {
    var n := connections + 1;
    var a := Attempt(script(n), n, req, RetryStart(attempt, now));
    if a.end.Printed? || attempt == MAX_RETRIES {
      ShapedLast(script, req, attempt, now, connections);
    } else {
      ShapedFrom(script, req, attempt + 1, a.now, n);
      ShapedNext(script, req, attempt, now, connections);
    }
  }

  lemma CountedLast(script: nat -> AttemptScript, req: Request, attempt: nat, now: nat, connections: nat)
    requires 1 <= attempt <= MAX_RETRIES
    requires var n := connections + 1;
      Attempt(script(n), n, req, RetryStart(attempt, now)).end.Printed? || attempt == MAX_RETRIES
    ensures RetryCounted(RetryFrom(script, req, attempt, now, connections), attempt)
  {
    var n := connections + 1;
    OneAttempt(script, req, attempt, now, connections);
    RetryFromLast(script, req, attempt, now, connections);
    LastRunCounted(Attempt(script(n), n, req, RetryStart(attempt, now)), attempt, connections);
  }

  lemma CountedNext(script: nat -> AttemptScript, req: Request, attempt: nat, now: nat, connections: nat)
    requires 1 <= attempt < MAX_RETRIES
    requires var n := connections + 1;
      Attempt(script(n), n, req, RetryStart(attempt, now)).end.Failed?
    requires var n := connections + 1;
      RetryCounted(RetryFrom(script, req, attempt + 1, Attempt(script(n), n, req, RetryStart(attempt, now)).now, n), attempt + 1)
    ensures RetryCounted(RetryFrom(script, req, attempt, now, connections), attempt)
  {
    var n := connections + 1;
    var a := Attempt(script(n), n, req, RetryStart(attempt, now));
    OneAttempt(script, req, attempt, now, connections);
    RetryFromNext(script, req, attempt, now, connections);
    NextRunCounted(a, attempt, connections, RetryFrom(script, req, attempt + 1, a.now, n));
  }

  lemma {:induction false} CountedFrom(script: nat -> AttemptScript, req: Request, attempt: nat, now: nat, connections: nat)
    requires 1 <= attempt <= MAX_RETRIES
    ensures RetryCounted(RetryFrom(script, req, attempt, now, connections), attempt)
    decreases MAX_RETRIES - attempt
  {
    var n := connections + 1;
    var a := Attempt(script(n), n, req, RetryStart(attempt, now));
    if a.end.Printed? || attempt == MAX_RETRIES {
      CountedLast(script, req, attempt, now, connections);
    } else {
      CountedFrom(script, req, attempt + 1, a.now, n);
      CountedNext(script, req, attempt, now, connections);
    }
  }

  lemma TornDownLast(script: nat -> AttemptScript, req: Request, attempt: nat, now: nat, connections: nat)
    requires 1 <= attempt <= MAX_RETRIES
    requires var n := connections + 1;
      Attempt(script(n), n, req, RetryStart(attempt, now)).end.Printed? || attempt == MAX_RETRIES
    ensures TornDown(RetryFrom(script, req, attempt, now, connections), connections)
  {
    var n := connections + 1;
    OneAttempt(script, req, attempt, now, connections);
    RetryFromLast(script, req, attempt, now, connections);
    LastRunTornDown(Attempt(script(n), n, req, RetryStart(attempt, now)), attempt, connections);
  }

  lemma TornDownNext(script: nat -> AttemptScript, req: Request, attempt: nat, now: nat, connections: nat)
    requires 1 <= attempt < MAX_RETRIES
    requires var n := connections + 1;
      Attempt(script(n), n, req, RetryStart(attempt, now)).end.Failed?
    requires var n := connections + 1;
      TornDown(RetryFrom(script, req, attempt + 1, Attempt(script(n), n, req, RetryStart(attempt, now)).now, n), n)
    ensures TornDown(RetryFrom(script, req, attempt, now, connections), connections)
  {
    var n := connections + 1;
    var a := Attempt(script(n), n, req, RetryStart(attempt, now));
    OneAttempt(script, req, attempt, now, connections);
    RetryFromNext(script, req, attempt, now, connections);
    NextRunTornDown(a, attempt, connections, RetryFrom(script, req, attempt + 1, a.now, n));
  }

  lemma {:induction false} TornDownFrom(script: nat -> AttemptScript, req: Request, attempt: nat, now: nat, connections: nat)
    requires 1 <= attempt <= MAX_RETRIES
    ensures TornDown(RetryFrom(script, req, attempt, now, connections), connections)
    decreases MAX_RETRIES - attempt
  {
    var n := connections + 1;
    var a := Attempt(script(n), n, req, RetryStart(attempt, now));
    if a.end.Printed? || attempt == MAX_RETRIES {
      TornDownLast(script, req, attempt, now, connections);
    } else {
      TornDownFrom(script, req, attempt + 1, a.now, n);
      TornDownNext(script, req, attempt, now, connections);
    }
  }

  /**
   * `PrintTemplateAsync` makes one to three attempts, connecting once per
   * attempt, first of all, and sleeping the retry delay only before the
   * second and third. Every attempt but the last failed; it returns the job
   * id and snapshot of the attempt that printed, and otherwise, after three
   * failures, throws the plain `Exception` wrapping the last one.
   */
  lemma PrintTemplateAttempts(script: nat -> AttemptScript, req: Request, now: nat, connections: nat)
    ensures var run := PrintTemplateRun(script, req, now, connections);
      var m := |run.attempts|;
      && 1 <= m <= MAX_RETRIES && run.connections == connections + m
      && run.calls != [] && run.calls[0] == GetConnection
      && Count(run.calls, GetConnection) == m
      && Count(run.calls, Delay(RETRY_DELAY_MS)) == m - 1
      && (forall i :: 0 <= i < m - 1 ==> run.attempts[i].Failed?)
      && (run.result.Returns? <==> run.attempts[m - 1].Printed?)
      && (run.attempts[m - 1].Printed? ==> run.result == Returns((run.attempts[m - 1].jobId, run.attempts[m - 1].status)))
      && (run.attempts[m - 1].Failed? ==> m == MAX_RETRIES && run.result == Throws(ExhaustedFault(run.attempts[m - 1].fault)))
      && (run.result.Throws? ==> run.result.fault.kind == Plain)
  {
    ShapedFrom(script, req, 1, now, connections);
    CountedFrom(script, req, 1, now, connections);
  }

  /**
   * Each failed attempt's teardown destroys its card printer and closes its
   * connection exactly once when it had obtained them, and skips a handle it
   * never obtained; the attempt that printed is never torn down.
   */
  lemma PrintTemplateTeardown(script: nat -> AttemptScript, req: Request, now: nat, connections: nat)
    ensures var run := PrintTemplateRun(script, req, now, connections);
      forall i :: 0 <= i < |run.attempts| ==>
        var e, n := run.attempts[i], connections + i + 1;
        && HandlesOf(e, n)
        && Count(run.calls, Close(Connection(n))) == (if e.Failed? && e.connection.Some? then 1 else 0)
        && Count(run.calls, Destroy(CardPrinter(n))) == (if e.Failed? && e.printer.Some? then 1 else 0)
  {
    TornDownFrom(script, req, 1, now, connections);
  }

  // ---------------------------------------------------------------------------
  // The retry loop as it runs

  /**
   * The loop, about to start attempt number `attempt` at `now` with
   * `connections` made so far and `log` received, will still do what the
   * whole loop `total` (begun with `log0`) had left to do.
   */
  ghost predicate RetryTracks(total: RetryRun, script: nat -> AttemptScript, req: Request, attempt: nat, now: nat,
                              connections: nat, log0: seq<Call>, log: seq<Call>) {
    && 1 <= attempt <= MAX_RETRIES
    && var cur := RetryFrom(script, req, attempt, now, connections);
    && total.result == cur.result && total.now == cur.now && total.connections == cur.connections
    && total.tick == cur.tick && log0 + total.calls == log + cur.calls
  }

  /**
   * One pass of the loop's body: the delay before attempt number `attempt`
   * (the clock at `now`, `connections` made so far, the log at `log`), the
   * attempt itself on connection `connections + 1`, which ended with `end`,
   * and the teardown if it failed, leaving the log `log'`, the clock `now'`,
   * the status-read count `tick'` and the connection count `connections'`.
   */
  ghost predicate AttemptStep(script: nat -> AttemptScript, req: Request, attempt: nat, now: nat, connections: nat,
                              log: seq<Call>, end: AttemptEnd, log': seq<Call>, now': nat, tick': nat, connections': nat) {
    var a := Attempt(script(connections + 1), connections + 1, req, RetryStart(attempt, now));
    && end == a.end && now' == a.now && tick' == a.tick && connections' == connections + 1
    && log' == log + RetryDelay(attempt) + a.calls + (if end.Failed? then TeardownCalls(end.connection, end.printer) else [])
  }

  /** The parts of one pass of the loop's body make up `AttemptStep`. */
  lemma AttemptStepOf(script: nat -> AttemptScript, req: Request, attempt: nat, now: nat, connections: nat,
                      log: seq<Call>, start: nat, before: seq<Call>, end: AttemptEnd, after: seq<Call>,
                      log': seq<Call>, now': nat, tick': nat, connections': nat)
    requires start == RetryStart(attempt, now) && before == log + RetryDelay(attempt)
    requires var a := Attempt(script(connections + 1), connections + 1, req, start);
      && end == a.end && after == before + a.calls && now' == a.now && tick' == a.tick && connections' == connections + 1
    requires log' == after + if end.Failed? then TeardownCalls(end.connection, end.printer) else []
    ensures AttemptStep(script, req, attempt, now, connections, log, end, log', now', tick', connections')
  {
  }

  /** An attempt that printed ends the loop with its job id and status. */
  lemma RetryTracksPrinted(total: RetryRun, script: nat -> AttemptScript, req: Request, attempt: nat, now: nat,
                           connections: nat, log0: seq<Call>, log: seq<Call>,
                           end: AttemptEnd, log': seq<Call>, now': nat, tick': nat, connections': nat)
    requires RetryTracks(total, script, req, attempt, now, connections, log0, log)
    requires AttemptStep(script, req, attempt, now, connections, log, end, log', now', tick', connections')
    requires end.Printed?
    ensures total.result == Returns((end.jobId, end.status)) && log' == log0 + total.calls
    ensures total.now == now' && total.connections == connections' && total.tick == tick'
  {
    var a := Attempt(script(connections + 1), connections + 1, req, RetryStart(attempt, now));
    RetryFromLast(script, req, attempt, now, connections);
    LastRunTracks(total, a, attempt, connections + 1, log0, log, [], log');
  }

  /** The third failed attempt, torn down, ends the loop with the wrapped fault. */
  lemma RetryTracksExhausted(total: RetryRun, script: nat -> AttemptScript, req: Request, attempt: nat, now: nat,
                             connections: nat, log0: seq<Call>, log: seq<Call>,
                             end: AttemptEnd, log': seq<Call>, now': nat, tick': nat, connections': nat)
    requires RetryTracks(total, script, req, attempt, now, connections, log0, log)
    requires AttemptStep(script, req, attempt, now, connections, log, end, log', now', tick', connections')
    requires end.Failed? && attempt == MAX_RETRIES
    ensures total.result == Throws(ExhaustedFault(end.fault)) && log' == log0 + total.calls
    ensures total.now == now' && total.connections == connections' && total.tick == tick'
  {
    var a := Attempt(script(connections + 1), connections + 1, req, RetryStart(attempt, now));
    RetryFromLast(script, req, attempt, now, connections);
    LastRunTracks(total, a, attempt, connections + 1, log0, log, TeardownCalls(end.connection, end.printer), log');
  }

  /** An earlier failed attempt, torn down, hands over to the next attempt. */
  lemma RetryTracksNext(total: RetryRun, script: nat -> AttemptScript, req: Request, attempt: nat, now: nat,
                        connections: nat, log0: seq<Call>, log: seq<Call>,
                        end: AttemptEnd, log': seq<Call>, now': nat, tick': nat, connections': nat, attempt': nat)
    requires RetryTracks(total, script, req, attempt, now, connections, log0, log)
    requires AttemptStep(script, req, attempt, now, connections, log, end, log', now', tick', connections')
    requires end.Failed? && attempt < MAX_RETRIES && attempt' == attempt + 1
    ensures RetryTracks(total, script, req, attempt', now', connections', log0, log')
  {
    var a := Attempt(script(connections + 1), connections + 1, req, RetryStart(attempt, now));
    RetryFromNext(script, req, attempt, now, connections);
    var rest := RetryFrom(script, req, attempt', now', connections');
    NextRunTracks(total, a, attempt, rest, log0, log, log');
  }

  /** `LastRun` is all the loop had left: its result, and its calls after `log`. */
  lemma LastRunTracks(total: RetryRun, a: AttemptRun, attempt: nat, n: nat, log0: seq<Call>, log: seq<Call>,
                      teardown: seq<Call>, log': seq<Call>)
    requires var cur := LastRun(a, attempt, n);
      && total.result == cur.result && total.now == cur.now && total.connections == cur.connections
      && total.tick == cur.tick && log0 + total.calls == log + cur.calls
    requires teardown == if a.end.Failed? then TeardownCalls(a.end.connection, a.end.printer) else []
    requires log' == log + RetryDelay(attempt) + a.calls + teardown
    ensures a.end.Printed? ==> total.result == Returns((a.end.jobId, a.end.status))
    ensures a.end.Failed? ==> total.result == Throws(ExhaustedFault(a.end.fault))
    ensures log' == log0 + total.calls && total.now == a.now && total.connections == n && total.tick == a.tick
  {
    if a.end.Printed? {
      assert log + (RetryDelay(attempt) + a.calls) == log';
    } else {
      assert log + (RetryDelay(attempt) + a.calls + teardown) == log';
    }
  }

  /** `NextRun`'s part of the loop, taken off the front of what is left. */
  lemma NextRunTracks(total: RetryRun, a: AttemptRun, attempt: nat, rest: RetryRun, log0: seq<Call>, log: seq<Call>,
                      log': seq<Call>)
    requires a.end.Failed?
    requires var cur := NextRun(a, attempt, rest);
      && total.result == cur.result && total.now == cur.now && total.connections == cur.connections
      && total.tick == cur.tick && log0 + total.calls == log + cur.calls
    requires log' == log + RetryDelay(attempt) + a.calls + TeardownCalls(a.end.connection, a.end.printer)
    ensures && total.result == rest.result && total.now == rest.now && total.connections == rest.connections
            && total.tick == rest.tick && log0 + total.calls == log' + rest.calls
  {
    assert log + (RetryDelay(attempt) + a.calls + TeardownCalls(a.end.connection, a.end.printer) + rest.calls)
        == log' + rest.calls;
  }
}
