/**
 * `PrinterTemplateService`: the methods as they run against the device,
 * each proved to do exactly what the functions of `Polling` and `Attempts`
 * describe — the same reply, the same calls in the same order, the same
 * clock and the same number of connections and status reads.
 */
module TemplateService {
  import opened Wrappers
  import opened Text
  import opened Sdk
  import opened Polling
  import opened Attempts

  class PrinterTemplateService {
    /** The card printer, the SDK and the clock the service talks to. */
    const device: Device

    constructor (device: Device)
      ensures this.device == device
    {
      this.device := device;
    }

    /**
     * `ValidateFieldData`: every declared field must have a non-empty
     * value; the first one that has none, in declared order, is reported.
     */
    method ValidateFieldData(fields: seq<string>, fieldData: FieldData) returns (r: Reply<()>)
      ensures r.Returns? <==> forall i :: 0 <= i < |fields| ==> Provided(fieldData, fields[i])
      ensures r.Throws? ==>
        exists i :: && 0 <= i < |fields| && !Provided(fieldData, fields[i])
                    && (forall j :: 0 <= j < i ==> Provided(fieldData, fields[j]))
                    && r.fault == MissingFieldFault(fields[i])
      ensures r == Validation(fields, fieldData)
    {
      for i := 0 to |fields|
        invariant forall j :: 0 <= j < i ==> Provided(fieldData, fields[j])
      {
        var field := fields[i];
        if field !in fieldData || fieldData[field].None? || fieldData[field].value == "" {
          return Throws(MissingFieldFault(field));
        }
      }
      return Returns(());
    }

    /**
     * `PollJobStatusAsync`: read the job's status once per tick until a
     * code, a settled status, a card-feed timeout (which cancels the job)
     * or the polling ceiling ends it.
     */
    method PollJobStatusAsync(jobId: int, p: CardPrinter) returns (r: Reply<JobStatusInfo>)
      modifies device
      ensures var run := Poll(old(device.Current()), p, jobId, old(device.now), old(device.tick));
        && r == run.result && device.log == old(device.log) + run.calls
        && device.now == run.now && device.tick == run.tick
        && device.connections == old(device.connections)
    {
      ghost var sc := device.Current();
      ghost var log0 := device.log;
      var jobStatusInfo := JobStatusInfo("", "", Info(0, ""), Info(0, ""));
      var isFeeding := false;
      var start: nat := device.TickCount();
      var pollStart: nat := start;
      ghost var total := Poll(sc, p, jobId, pollStart, device.tick);
      while true
        invariant device.connections == old(device.connections) && device.Current() == sc
        invariant Tracks(total, sc, p, jobId, pollStart, device.now, device.tick, FeedTimer(isFeeding, start), log0, device.log)
        decreases pollStart + MAX_POLLING_TIME - device.now
      {
        if device.TickCount() > pollStart + MAX_POLLING_TIME {
          return Throws(PollTimeoutFault());
        }
        ghost var now, k, timer := device.now, device.tick, FeedTimer(isFeeding, start);
        ghost var logTop := device.log;
        var reply := device.GetJobStatus(p, jobId);
        if reply.Throws? {
          ReadThrows(sc, p, jobId, pollStart, now, k, timer);
          return reply;
        }
        jobStatusInfo := reply.value;
        if !isFeeding {
          start := device.TickCount();
        }
        isFeeding := Contains(jobStatusInfo.cardPosition, "feeding");
        if jobStatusInfo.alarmInfo.value > 0 || jobStatusInfo.errorInfo.value > 0 {
          ReadEnds(sc, p, jobId, pollStart, now, k, timer, jobStatusInfo);
          return Returns(jobStatusInfo);
        }
        if Contains(jobStatusInfo.printStatus, "done_ok") {
          ReadEnds(sc, p, jobId, pollStart, now, k, timer, jobStatusInfo);
          break;
        } else if Contains(jobStatusInfo.printStatus, "error") || Contains(jobStatusInfo.printStatus, "cancelled") {
          ReadEnds(sc, p, jobId, pollStart, now, k, timer, jobStatusInfo);
          break;
        } else if jobStatusInfo.errorInfo.value > 0 {
          // Excluded by the code test above.
          assert false;
        } else if Contains(jobStatusInfo.printStatus, "in_progress") && isFeeding {
          if device.TickCount() > start + CARD_FEED_TIMEOUT {
            ReadCancels(sc, p, jobId, pollStart, now, k, timer, jobStatusInfo);
            var cancelled := device.Cancel(p, jobId);
            if cancelled.Throws? {
              return Throws(cancelled.fault);
            }
            break;
          }
        }
        device.Delay(POLL_INTERVAL);
        TracksContinues(total, sc, p, jobId, pollStart, now, k, timer, log0, logTop, jobStatusInfo,
                        device.now, device.tick, FeedTimer(isFeeding, start), device.log);
      }
      return Returns(jobStatusInfo);
    }

    /**
     * `CloseConnection`: destroy the card printer, then close the
     * connection, skipping a null handle; a failure of either is swallowed
     * and does not keep the other from running.
     */
    method CloseConnection(connection: Option<Connection>, printer: Option<CardPrinter>)
      modifies device`log
      ensures device.log == old(device.log) + TeardownCalls(connection, printer)
    {
      if printer.Some? {
        var _ := device.Destroy(printer.value);
      }
      if connection.Some? {
        var _ := device.Close(connection.value);
      }
    }

    /**
     * `PrintTemplateAsync` after its argument checks: up to `MAX_RETRIES`
     * attempts, the later ones after a delay; the first attempt that prints
     * returns its job id and final status, and each failed one is torn down
     * before the next, the last failure being wrapped and rethrown.
     */
    method PrintTemplateAsync(req: Request) returns (r: Reply<(int, JobStatusInfo)>)
      modifies device
      ensures var run := PrintTemplateRun(device.script, req, old(device.now), old(device.connections));
        && r == run.result && device.log == old(device.log) + run.calls
        && device.now == run.now && device.connections == run.connections && device.tick == run.tick
    {
      ghost var log0 := device.log;
      ghost var total := PrintTemplateRun(device.script, req, device.now, device.connections);
      var lastException: Option<Fault> := None;
      var attempt := 1;
      while attempt <= MAX_RETRIES
        invariant 1 <= attempt <= MAX_RETRIES
        invariant RetryTracks(total, device.script, req, attempt, device.now, device.connections, log0, device.log)
        decreases MAX_RETRIES - attempt
      {
        ghost var now, connections, log := device.now, device.connections, device.log;
        var end := TryAttempt(req, attempt);
        if end.Printed? {
          RetryTracksPrinted(total, device.script, req, attempt, now, connections, log0, log,
                             end, device.log, device.now, device.tick, device.connections);
          return Returns((end.jobId, end.status));
        }
        lastException := Some(end.fault);
        if attempt == MAX_RETRIES {
          RetryTracksExhausted(total, device.script, req, attempt, now, connections, log0, log,
                               end, device.log, device.now, device.tick, device.connections);
          return Throws(ExhaustedFault(end.fault));
        }
        attempt := attempt + 1;
        RetryTracksNext(total, device.script, req, attempt - 1, now, connections, log0, log,
                        end, device.log, device.now, device.tick, device.connections, attempt);
      }
      // The loop returns from its last attempt.
      assert false;
      return Throws(Fault(Plain, "Error printing template: " + MessageOf(lastException), lastException));
    }

    /**
     * One pass of the retry loop's body: the delay before a later attempt,
     * the attempt, and, when it failed, the teardown of whatever handles it
     * had obtained (its `catch` block, which resets both handles to null).
     */
    method TryAttempt(req: Request, attempt: nat) returns (end: AttemptEnd)
      modifies device
      ensures AttemptStep(device.script, req, attempt, old(device.now), old(device.connections), old(device.log),
                          end, device.log, device.now, device.tick, device.connections)
    {
      ghost var now, connections, log := device.now, device.connections, device.log;
      if attempt > 1 {
        device.Delay(RETRY_DELAY_MS);
      }
      ghost var start, before := device.now, device.log;
      assert start == RetryStart(attempt, now) && before == log + RetryDelay(attempt) && device.connections == connections;
      end := RunAttempt(req);
      ghost var after := device.log;
      if end.Failed? {
        CloseConnection(end.connection, end.printer);
      }
      AttemptStepOf(device.script, req, attempt, now, connections, log, start, before, end, after,
                    device.log, device.now, device.tick, device.connections);
    }

    /**
     * The body of one attempt of `PrintTemplateAsync`: obtain a connection
     * from the discovered printer, then go on over it. A fault comes back as
     * `Failed`, with the handles obtained so far, for the retry loop to tear
     * down.
     */
    method RunAttempt(req: Request) returns (end: AttemptEnd)
      modifies device
      ensures var n := old(device.connections) + 1;
        var a := Attempt(device.script(n), n, req, old(device.now));
        && end == a.end && device.log == old(device.log) + a.calls
        && device.now == a.now && device.tick == a.tick && device.connections == n
    {
      ghost var log, now := device.log, device.now;
      var got := device.GetConnection();
      if got.Throws? {
        return Failed(ConnectionFault(got.fault), None, None);
      }
      ghost var sc, mid := device.Current(), device.log;
      end := OpenAndInitialize(got.value, req);
      AttemptProceeds(sc, device.connections, req, now, log, mid, end, device.log, device.now, device.tick);
    }

    /**
     * Open the new connection and create the card printer over it; a fault
     * of `Open` is reported as a connection fault, one of `GetInstance` as an
     * initialization fault.
     */
    method OpenAndInitialize(connection: Connection, req: Request) returns (end: AttemptEnd)
      requires device.tick == 0
      modifies device
      ensures var run := Connected(old(device.Current()), connection, req, old(device.now));
        && end == run.end && device.log == old(device.log) + run.calls
        && device.now == run.now && device.tick == run.tick && device.connections == old(device.connections)
    {
      ghost var log, now := device.log, device.now;
      var openResult := device.Open(connection);
      if openResult.Throws? {
        return Failed(ConnectionFault(openResult.fault), Some(connection), None);
      }
      var instance := device.GetInstance(connection);
      if instance.Throws? {
        return Failed(InitFault(instance.fault), Some(connection), None);
      }
      ghost var sc, mid := device.Current(), device.log;
      end := PrepareTemplate(connection, instance.value, req);
      ConnectedProceeds(sc, connection, req, now, log, mid, end, device.log, device.now, device.tick);
    }

    /**
     * With the card printer: require the status `ready` or `idle`, then
     * delete the stored template, a missing one being no failure.
     */
    method PrepareTemplate(connection: Connection, zebra: CardPrinter, req: Request) returns (end: AttemptEnd)
      requires device.tick == 0
      modifies device
      ensures var run := OnPrinter(old(device.Current()), connection, zebra, req, old(device.now));
        && end == run.end && device.log == old(device.log) + run.calls
        && device.now == run.now && device.tick == run.tick && device.connections == old(device.connections)
    {
      ghost var log, now := device.log, device.now;
      var status := device.GetPrinterStatus(zebra);
      if status.Throws? {
        return Failed(status.fault, Some(connection), Some(zebra));
      }
      if status.value != "ready" && status.value != "idle" {
        return Failed(NotReadyFault(status.value), Some(connection), Some(zebra));
      }
      var deleted := device.DeleteTemplateFileData(zebra, TEMPLATE_NAME);
      if deleted.Throws? && deleted.fault.kind != FileNotFound {
        return Failed(deleted.fault, Some(connection), Some(zebra));
      }
      ghost var sc, mid := device.Current(), device.log;
      end := UploadTemplate(connection, zebra, req);
      OnPrinterProceeds(sc, connection, zebra, req, now, log, mid, end, device.log, device.now, device.tick);
    }

    /**
     * Save the template, read its declared fields back, and validate the
     * field data against them.
     */
    method UploadTemplate(connection: Connection, zebra: CardPrinter, req: Request) returns (end: AttemptEnd)
      requires device.tick == 0
      modifies device
      ensures var run := Upload(old(device.Current()), connection, zebra, req, old(device.now));
        && end == run.end && device.log == old(device.log) + run.calls
        && device.now == run.now && device.tick == run.tick && device.connections == old(device.connections)
    {
      ghost var log, now := device.log, device.now;
      var saved := device.SaveTemplateFileData(zebra, TEMPLATE_NAME, req.templateData);
      if saved.Throws? {
        return Failed(saved.fault, Some(connection), Some(zebra));
      }
      var fields := device.GetTemplateDataFields(zebra, req.templateData);
      if fields.Throws? {
        return Failed(fields.fault, Some(connection), Some(zebra));
      }
      var valid := ValidateFieldData(fields.value, req.fieldData);
      if valid.Throws? {
        return Failed(valid.fault, Some(connection), Some(zebra));
      }
      ghost var sc, mid := device.Current(), device.log;
      end := SubmitJob(connection, zebra, req);
      UploadProceeds(sc, connection, zebra, req, now, log, mid, end, device.log, device.now, device.tick);
    }

    /** Generate the job from the template and the field data, print it, and poll it to its end. */
    method SubmitJob(connection: Connection, zebra: CardPrinter, req: Request) returns (end: AttemptEnd)
      requires device.tick == 0
      modifies device
      ensures var run := Submit(old(device.Current()), connection, zebra, req, old(device.now));
        && end == run.end && device.log == old(device.log) + run.calls
        && device.now == run.now && device.tick == run.tick && device.connections == old(device.connections)
    {
      var generated := device.GenerateTemplateJob(zebra, TEMPLATE_NAME, req.fieldData);
      if generated.Throws? {
        return Failed(generated.fault, Some(connection), Some(zebra));
      }
      var jobId := device.PrintTemplate(zebra, req.copies);
      if jobId.Throws? {
        return Failed(jobId.fault, Some(connection), Some(zebra));
      }
      var jobStatus := PollJobStatusAsync(jobId.value, zebra);
      if jobStatus.Throws? {
        return Failed(jobStatus.fault, Some(connection), Some(zebra));
      }
      return Printed(jobId.value, jobStatus.value);
    }
  }
}
