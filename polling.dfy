/**
 * What `PollJobStatusAsync` does, as a function of the scripted device:
 * the reply it ends with, the SDK calls it makes, the snapshots it reads and
 * the time it leaves the clock at. The method in `TemplateService` is proved
 * to behave exactly so; the lemmas here are the poller's promises.
 */
module Polling {
  import opened Wrappers
  import opened Text
  import opened Sdk

  const CARD_FEED_TIMEOUT: nat := 30000
  const MAX_POLLING_TIME: nat := 60000
  /** The `Task.Delay(1000)` between two status reads. */
  const POLL_INTERVAL: nat := 1000

  /** The `TimeoutException` thrown when polling exceeds its ceiling. */
  function PollTimeoutFault(): Fault {
    Fault(Timeout, "Job status polling timed out after " + NatToString(MAX_POLLING_TIME / 1000) + " seconds", None)
  }

  /** `AlarmInfo.Value > 0 || ErrorInfo.Value > 0`: the device reports a problem. */
  predicate HasCode(s: JobStatusInfo) {
    s.alarmInfo.value > 0 || s.errorInfo.value > 0
  }

  predicate IsFeeding(s: JobStatusInfo) {
    Contains(s.cardPosition, "feeding")
  }

  /** The print status says the job finished: `done_ok`, `error` or `cancelled`. */
  predicate Settled(s: JobStatusInfo) {
    Contains(s.printStatus, "done_ok") || Contains(s.printStatus, "error") || Contains(s.printStatus, "cancelled")
  }

  /** The card-feed timer: `isFeeding` of the previous read and the `start` timestamp. */
  datatype FeedTimer = FeedTimer(isFeeding: bool, start: nat)

  /** One status read: when it completed and what it returned. */
  datatype Tick = Tick(at: nat, status: JobStatusInfo)

  datatype PollRun = PollRun(result: Reply<JobStatusInfo>, calls: seq<Call>, ticks: seq<Tick>, now: nat, tick: nat)

  /** What one status read decides (the if-chain after the read). */
  datatype Verdict = ReturnNow | Break | CancelJob | KeepPolling

  /**
   * The tests made on a snapshot `s` read at time `read`, with the feed
   * timer started at `start`: codes first, then the print status, then the
   * card-feed timeout. The test of `ErrorInfo.Value > 0` that the chain
   * repeats after the status tests can never succeed there and has no case.
   */
  function TickVerdict(s: JobStatusInfo, read: nat, start: nat): Verdict {
    if HasCode(s) then ReturnNow
    else if Settled(s) then Break
    else if Contains(s.printStatus, "in_progress") && IsFeeding(s) && read > start + CARD_FEED_TIMEOUT then CancelJob
    else KeepPolling
  }

  /** The `start` timestamp after a read completed at `read`: restarted unless the previous read was feeding. */
  function Restart(timer: FeedTimer, read: nat): nat {
    if !timer.isFeeding then read else timer.start
  }

  /** How one tick ends: the poll is over (with its reply, calls and reads), or it goes on after the read `t`. */
  datatype TickOutcome =
    | Ended(result: Reply<JobStatusInfo>, calls: seq<Call>, ticks: seq<Tick>)
    | Continues(t: Tick, next: FeedTimer)

  /**
   * One tick of the poll loop whose top is reached at `now`, with `k`
   * status reads already made in this attempt: the read, the feed timer's
   * restart, and the verdict. A failed read ends the poll with that fault; a
   * cancel that throws ends it with the cancel's fault.
   */
  function TickAt(sc: AttemptScript, p: CardPrinter, jobId: int, now: nat, k: nat, timer: FeedTimer): (o: TickOutcome)
    ensures o.Continues? ==> o.t.at == now + sc.jobStatus(k).latency
  {
    var obs := sc.jobStatus(k);
    var read := now + obs.latency;
    if obs.reply.Throws? then
      Ended(obs.reply, [GetJobStatus(p, jobId)], [])
    else
      var s := obs.reply.value;
      var start := Restart(timer, read);
      match TickVerdict(s, read, start)
      case ReturnNow => Ended(Returns(s), [GetJobStatus(p, jobId)], [Tick(read, s)])
      case Break => Ended(Returns(s), [GetJobStatus(p, jobId)], [Tick(read, s)])
      case CancelJob =>
        Ended(if sc.cancel.Throws? then Throws(sc.cancel.fault) else Returns(s), [GetJobStatus(p, jobId), Cancel(p, jobId)], [Tick(read, s)])
      case KeepPolling => Continues(Tick(read, s), FeedTimer(IsFeeding(s), start))
  }

  /**
   * The poll loop from a tick whose top is reached at time `now`. The clock
   * is read at the top of the tick, after the status read (to restart the
   * feed timer) and for the feed-timeout test; only the read's latency and
   * the delay between ticks move it.
   */
  function PollFrom(sc: AttemptScript, p: CardPrinter, jobId: int, pollStart: nat, now: nat, k: nat, timer: FeedTimer): PollRun
    decreases pollStart + MAX_POLLING_TIME - now
  {
    if now > pollStart + MAX_POLLING_TIME then
      PollRun(Throws(PollTimeoutFault()), [], [], now, k)
    else
      match TickAt(sc, p, jobId, now, k, timer)
      case Ended(result, calls, ticks) => PollRun(result, calls, ticks, now + sc.jobStatus(k).latency, k + 1)
      case Continues(t, next) =>
        var rest := PollFrom(sc, p, jobId, pollStart, t.at + POLL_INTERVAL, k + 1, next);
        PollRun(rest.result, [GetJobStatus(p, jobId), Delay(POLL_INTERVAL)] + rest.calls, [t] + rest.ticks, rest.now, rest.tick)
  }

  /** A whole poll, as `PollJobStatusAsync` starts it: `start` and `pollStart` both read now. */
  function Poll(sc: AttemptScript, p: CardPrinter, jobId: int, now: nat, k: nat): PollRun {
    PollFrom(sc, p, jobId, now, now, k, FeedTimer(false, now))
  }

  // ---------------------------------------------------------------------------
  // The feed timer covers one contiguous feeding episode

  /**
   * Index of the read at which the feed timer was last restarted: the
   * latest read whose predecessor was not feeding (or the first read).
   */
  function EpisodeStart(h: seq<Tick>): (m: nat)
    requires |h| > 0
    ensures m < |h|
    ensures m == 0 || !IsFeeding(h[m - 1].status)
    ensures forall j :: m <= j < |h| - 1 ==> IsFeeding(h[j].status)
    decreases |h|
  {
    if |h| == 1 || !IsFeeding(h[|h| - 2].status) then |h| - 1 else EpisodeStart(h[..|h| - 1])
  }

  /** The timer's state after the reads `past`: `isFeeding` of the last one, `start` of its episode. */
  ghost predicate TimerAgrees(past: seq<Tick>, timer: FeedTimer) {
    && timer.isFeeding == (|past| > 0 && IsFeeding(past[|past| - 1].status))
    && (timer.isFeeding ==> timer.start == past[EpisodeStart(past)].at)
  }

  /** One read restarts or keeps the timer so that it still agrees with the history. */
  lemma TimerStep(past: seq<Tick>, timer: FeedTimer, t: Tick)
    requires TimerAgrees(past, timer)
    ensures var h := past + [t];
      var start := Restart(timer, t.at);
      && start == h[EpisodeStart(h)].at
      && TimerAgrees(h, FeedTimer(IsFeeding(t.status), start))
  {
    var h := past + [t];
    assert h[..|h| - 1] == past;
  }

  // ---------------------------------------------------------------------------
  // Properties of one tick

  /** The calls of a tick that ends the poll: the status read, and the cancel when the verdict is to cancel. */
  lemma EndedTickCalls(sc: AttemptScript, p: CardPrinter, jobId: int, now: nat, k: nat, timer: FeedTimer)
    ensures var o := TickAt(sc, p, jobId, now, k, timer);
      o.Ended? ==>
        && |o.ticks| <= 1
        && (o.calls == [GetJobStatus(p, jobId)] || o.calls == [GetJobStatus(p, jobId), Cancel(p, jobId)])
        && (o.result.Returns? ==> |o.ticks| == 1 && o.result.value == o.ticks[0].status)
        && (|o.ticks| == 1 && (HasCode(o.ticks[0].status) || Settled(o.ticks[0].status)) ==>
              o.result == Returns(o.ticks[0].status) && o.calls == [GetJobStatus(p, jobId)])
  {
  }

  /** A tick that goes on read a snapshot its verdict lets through, and carries the restarted timer on. */
  lemma ContinuesTick(sc: AttemptScript, p: CardPrinter, jobId: int, now: nat, k: nat, timer: FeedTimer)
    ensures var o := TickAt(sc, p, jobId, now, k, timer);
      o.Continues? ==>
        && sc.jobStatus(k).reply == Returns(o.t.status)
        && TickVerdict(o.t.status, o.t.at, Restart(timer, o.t.at)) == KeepPolling
        && o.next == FeedTimer(IsFeeding(o.t.status), Restart(timer, o.t.at))
  {
  }

  /** A poll whose first tick goes on is that tick's read, a delay, and the poll from the next tick. */
  lemma PollFromContinues(sc: AttemptScript, p: CardPrinter, jobId: int, pollStart: nat, now: nat, k: nat, timer: FeedTimer)
    requires now <= pollStart + MAX_POLLING_TIME && TickAt(sc, p, jobId, now, k, timer).Continues?
    ensures var o := TickAt(sc, p, jobId, now, k, timer);
      var rest := PollFrom(sc, p, jobId, pollStart, o.t.at + POLL_INTERVAL, k + 1, o.next);
      PollFrom(sc, p, jobId, pollStart, now, k, timer)
        == PollRun(rest.result, [GetJobStatus(p, jobId), Delay(POLL_INTERVAL)] + rest.calls, [o.t] + rest.ticks, rest.now, rest.tick)
  {
  }

  /** A poll whose first tick ends it is that tick. */
  lemma PollFromEnded(sc: AttemptScript, p: CardPrinter, jobId: int, pollStart: nat, now: nat, k: nat, timer: FeedTimer)
    requires now <= pollStart + MAX_POLLING_TIME && TickAt(sc, p, jobId, now, k, timer).Ended?
    ensures var o := TickAt(sc, p, jobId, now, k, timer);
      PollFrom(sc, p, jobId, pollStart, now, k, timer) == PollRun(o.result, o.calls, o.ticks, now + sc.jobStatus(k).latency, k + 1)
  {
  }

  /** A tick whose status read throws ends the poll with that fault. */
  lemma ReadThrows(sc: AttemptScript, p: CardPrinter, jobId: int, pollStart: nat, now: nat, k: nat, timer: FeedTimer)
    requires now <= pollStart + MAX_POLLING_TIME && sc.jobStatus(k).reply.Throws?
    ensures PollFrom(sc, p, jobId, pollStart, now, k, timer)
      == PollRun(sc.jobStatus(k).reply, [GetJobStatus(p, jobId)], [], now + sc.jobStatus(k).latency, k + 1)
  {
    PollFromEnded(sc, p, jobId, pollStart, now, k, timer);
  }

  /** A tick that reads a snapshot with a code or a settled status ends the poll with it. */
  lemma ReadEnds(sc: AttemptScript, p: CardPrinter, jobId: int, pollStart: nat, now: nat, k: nat, timer: FeedTimer, s: JobStatusInfo)
    requires now <= pollStart + MAX_POLLING_TIME && sc.jobStatus(k).reply == Returns(s)
    requires HasCode(s) || Settled(s)
    ensures var read := now + sc.jobStatus(k).latency;
      PollFrom(sc, p, jobId, pollStart, now, k, timer) == PollRun(Returns(s), [GetJobStatus(p, jobId)], [Tick(read, s)], read, k + 1)
  {
    PollFromEnded(sc, p, jobId, pollStart, now, k, timer);
  }

  /** A tick that finds the card stuck past the feed timeout cancels the job and ends the poll. */
  lemma ReadCancels(sc: AttemptScript, p: CardPrinter, jobId: int, pollStart: nat, now: nat, k: nat, timer: FeedTimer, s: JobStatusInfo)
    requires now <= pollStart + MAX_POLLING_TIME && sc.jobStatus(k).reply == Returns(s)
    requires var read := now + sc.jobStatus(k).latency;
      TickVerdict(s, read, Restart(timer, read)) == CancelJob
    ensures var read := now + sc.jobStatus(k).latency;
      PollFrom(sc, p, jobId, pollStart, now, k, timer)
        == PollRun(if sc.cancel.Throws? then Throws(sc.cancel.fault) else Returns(s),
                   [GetJobStatus(p, jobId), Cancel(p, jobId)], [Tick(read, s)], read, k + 1)
  {
    PollFromEnded(sc, p, jobId, pollStart, now, k, timer);
  }

  /** A tick that lets its snapshot through is the read, a delay, and the poll from the next tick. */
  lemma ReadContinues(sc: AttemptScript, p: CardPrinter, jobId: int, pollStart: nat, now: nat, k: nat, timer: FeedTimer, s: JobStatusInfo)
    requires now <= pollStart + MAX_POLLING_TIME && sc.jobStatus(k).reply == Returns(s)
    requires var read := now + sc.jobStatus(k).latency;
      TickVerdict(s, read, Restart(timer, read)) == KeepPolling
    ensures var read := now + sc.jobStatus(k).latency;
      var rest := PollFrom(sc, p, jobId, pollStart, read + POLL_INTERVAL, k + 1, FeedTimer(IsFeeding(s), Restart(timer, read)));
      PollFrom(sc, p, jobId, pollStart, now, k, timer)
        == PollRun(rest.result, [GetJobStatus(p, jobId), Delay(POLL_INTERVAL)] + rest.calls, [Tick(read, s)] + rest.ticks, rest.now, rest.tick)
  {
    var read := now + sc.jobStatus(k).latency;
    assert TickAt(sc, p, jobId, now, k, timer) == Continues(Tick(read, s), FeedTimer(IsFeeding(s), Restart(timer, read)));
    PollFromContinues(sc, p, jobId, pollStart, now, k, timer);
  }

  /**
   * The loop of `PollJobStatusAsync` at the top of a tick, having made the
   * calls `log` since `log0`, is on its way to the whole poll `total`: what
   * is left of it is the poll from this tick.
   */
  ghost predicate Tracks(total: PollRun, sc: AttemptScript, p: CardPrinter, jobId: int, pollStart: nat,
                         now: nat, k: nat, timer: FeedTimer, log0: seq<Call>, log: seq<Call>) {
    var cur := PollFrom(sc, p, jobId, pollStart, now, k, timer);
    && total.result == cur.result && total.now == cur.now && total.tick == cur.tick
    && log0 + total.calls == log + cur.calls
  }

  /**
   * A tick that lets its snapshot through keeps the loop on its way: from
   * the next tick's top, reached at `now'` after `k'` reads with the timer
   * `timer'` and the calls `log'`.
   */
  lemma TracksContinues(total: PollRun, sc: AttemptScript, p: CardPrinter, jobId: int, pollStart: nat,
                        now: nat, k: nat, timer: FeedTimer, log0: seq<Call>, log: seq<Call>, s: JobStatusInfo,
                        now': nat, k': nat, timer': FeedTimer, log': seq<Call>)
    requires Tracks(total, sc, p, jobId, pollStart, now, k, timer, log0, log)
    requires now <= pollStart + MAX_POLLING_TIME && sc.jobStatus(k).reply == Returns(s)
    requires var read := now + sc.jobStatus(k).latency;
      && TickVerdict(s, read, Restart(timer, read)) == KeepPolling
      && now' == read + POLL_INTERVAL && k' == k + 1 && timer' == FeedTimer(IsFeeding(s), Restart(timer, read))
    requires log' == log + [GetJobStatus(p, jobId), Delay(POLL_INTERVAL)]
    ensures Tracks(total, sc, p, jobId, pollStart, now', k', timer', log0, log')
  {
    var rest := PollFrom(sc, p, jobId, pollStart, now', k', timer');
    ReadContinues(sc, p, jobId, pollStart, now, k, timer, s);
    assert log + ([GetJobStatus(p, jobId), Delay(POLL_INTERVAL)] + rest.calls) == log' + rest.calls;
  }

  // ---------------------------------------------------------------------------
  // Properties of one poll
  //
  // Each property is proved by induction on the ticks; the step for a tick
  // that ends the poll and the step for a tick that goes on are lemmas of
  // their own.

  /** The calls `PollCalls` allows: status reads, delays and cancels, with a cancel only last. */
  ghost predicate PollCallsShape(calls: seq<Call>, p: CardPrinter, jobId: int) {
    && (forall i :: 0 <= i < |calls| ==> calls[i] == GetJobStatus(p, jobId) || calls[i] == Delay(POLL_INTERVAL) || calls[i] == Cancel(p, jobId))
    && (forall i :: 0 <= i < |calls| - 1 ==> !calls[i].Cancel?)
  }

  /** A read and a delay before calls of that shape keep the shape. */
  lemma PollCallsShapePrefix(calls: seq<Call>, p: CardPrinter, jobId: int)
    requires PollCallsShape(calls, p, jobId)
    ensures PollCallsShape([GetJobStatus(p, jobId), Delay(POLL_INTERVAL)] + calls, p, jobId)
  {
    var all := [GetJobStatus(p, jobId), Delay(POLL_INTERVAL)] + calls;
    assert forall i :: 2 <= i < |all| ==> all[i] == calls[i - 2];
  }

  /** What `PollCalls` promises of the poll from the tick top at `now` after `k` reads. */
  ghost predicate PollCallsOk(run: PollRun, p: CardPrinter, jobId: int, now: nat, k: nat) {
    PollCallsShape(run.calls, p, jobId) && k <= run.tick && now <= run.now
  }

  lemma PollCallsEnded(sc: AttemptScript, p: CardPrinter, jobId: int, pollStart: nat, now: nat, k: nat, timer: FeedTimer)
    requires now <= pollStart + MAX_POLLING_TIME && TickAt(sc, p, jobId, now, k, timer).Ended?
    ensures PollCallsOk(PollFrom(sc, p, jobId, pollStart, now, k, timer), p, jobId, now, k)
  {
    PollFromEnded(sc, p, jobId, pollStart, now, k, timer);
    EndedTickCalls(sc, p, jobId, now, k, timer);
  }

  lemma PollCallsContinues(sc: AttemptScript, p: CardPrinter, jobId: int, pollStart: nat, now: nat, k: nat, timer: FeedTimer)
    requires now <= pollStart + MAX_POLLING_TIME && TickAt(sc, p, jobId, now, k, timer).Continues?
    requires var o := TickAt(sc, p, jobId, now, k, timer);
      PollCallsOk(PollFrom(sc, p, jobId, pollStart, o.t.at + POLL_INTERVAL, k + 1, o.next), p, jobId, o.t.at + POLL_INTERVAL, k + 1)
    ensures PollCallsOk(PollFrom(sc, p, jobId, pollStart, now, k, timer), p, jobId, now, k)
  {
    var o := TickAt(sc, p, jobId, now, k, timer);
    PollFromContinues(sc, p, jobId, pollStart, now, k, timer);
    PollCallsShapePrefix(PollFrom(sc, p, jobId, pollStart, o.t.at + POLL_INTERVAL, k + 1, o.next).calls, p, jobId);
  }

  /**
   * The poller only reads the job's status, sleeps the poll interval and
   * cancels the job; a cancel is the last thing it does, so there is at most one.
   */
  lemma {:induction false} PollCalls(sc: AttemptScript, p: CardPrinter, jobId: int, pollStart: nat, now: nat, k: nat, timer: FeedTimer)
    ensures PollCallsOk(PollFrom(sc, p, jobId, pollStart, now, k, timer), p, jobId, now, k)
    decreases pollStart + MAX_POLLING_TIME - now
  {
    if now <= pollStart + MAX_POLLING_TIME {
      var o := TickAt(sc, p, jobId, now, k, timer);
      if o.Ended? {
        PollCallsEnded(sc, p, jobId, pollStart, now, k, timer);
      } else {
        PollCalls(sc, p, jobId, pollStart, o.t.at + POLL_INTERVAL, k + 1, o.next);
        PollCallsContinues(sc, p, jobId, pollStart, now, k, timer);
      }
    }
  }

  /**
   * Every read but the last showed neither a code nor a settled status; a
   * returned snapshot is the last one read; and a last read with a code or
   * a settled status is what the poll returns, without a cancel.
   */
  ghost predicate StopsAtFirstVerdict(run: PollRun, p: CardPrinter, jobId: int) {
    && (forall i :: 0 <= i < |run.ticks| - 1 ==> !HasCode(run.ticks[i].status) && !Settled(run.ticks[i].status))
    && (run.result.Returns? ==> |run.ticks| > 0 && run.result.value == run.ticks[|run.ticks| - 1].status)
    && (|run.ticks| > 0 && (HasCode(run.ticks[|run.ticks| - 1].status) || Settled(run.ticks[|run.ticks| - 1].status)) ==>
          run.result == Returns(run.ticks[|run.ticks| - 1].status) && Cancel(p, jobId) !in run.calls)
  }

  /** A read that showed neither a code nor a settled status, before a run that stops at its first verdict. */
  lemma StopsAtFirstVerdictPrefix(run: PollRun, rest: PollRun, t: Tick, p: CardPrinter, jobId: int)
    requires !HasCode(t.status) && !Settled(t.status)
    requires run.result == rest.result
    requires run.calls == [GetJobStatus(p, jobId), Delay(POLL_INTERVAL)] + rest.calls && run.ticks == [t] + rest.ticks
    requires StopsAtFirstVerdict(rest, p, jobId)
    ensures StopsAtFirstVerdict(run, p, jobId)
  {
    assert forall i :: 1 <= i < |run.ticks| ==> run.ticks[i] == rest.ticks[i - 1];
  }

  lemma StopsAtFirstVerdictEnded(sc: AttemptScript, p: CardPrinter, jobId: int, pollStart: nat, now: nat, k: nat, timer: FeedTimer)
    requires now <= pollStart + MAX_POLLING_TIME && TickAt(sc, p, jobId, now, k, timer).Ended?
    ensures StopsAtFirstVerdict(PollFrom(sc, p, jobId, pollStart, now, k, timer), p, jobId)
  {
    PollFromEnded(sc, p, jobId, pollStart, now, k, timer);
    EndedTickCalls(sc, p, jobId, now, k, timer);
  }

  lemma StopsAtFirstVerdictContinues(sc: AttemptScript, p: CardPrinter, jobId: int, pollStart: nat, now: nat, k: nat, timer: FeedTimer)
    requires now <= pollStart + MAX_POLLING_TIME && TickAt(sc, p, jobId, now, k, timer).Continues?
    requires var o := TickAt(sc, p, jobId, now, k, timer);
      StopsAtFirstVerdict(PollFrom(sc, p, jobId, pollStart, o.t.at + POLL_INTERVAL, k + 1, o.next), p, jobId)
    ensures StopsAtFirstVerdict(PollFrom(sc, p, jobId, pollStart, now, k, timer), p, jobId)
  {
    var o := TickAt(sc, p, jobId, now, k, timer);
    PollFromContinues(sc, p, jobId, pollStart, now, k, timer);
    ContinuesTick(sc, p, jobId, now, k, timer);
    StopsAtFirstVerdictPrefix(PollFrom(sc, p, jobId, pollStart, now, k, timer), PollFrom(sc, p, jobId, pollStart, o.t.at + POLL_INTERVAL, k + 1, o.next),
                              o.t, p, jobId);
  }

  /**
   * Alarm and error codes end polling on the read that shows them, before
   * the status text matters and without a cancel; so does a settled status.
   */
  lemma {:induction false} PollStopsAtFirstVerdict(sc: AttemptScript, p: CardPrinter, jobId: int, pollStart: nat, now: nat, k: nat, timer: FeedTimer)
    ensures StopsAtFirstVerdict(PollFrom(sc, p, jobId, pollStart, now, k, timer), p, jobId)
    decreases pollStart + MAX_POLLING_TIME - now
  {
    if now <= pollStart + MAX_POLLING_TIME {
      var o := TickAt(sc, p, jobId, now, k, timer);
      if o.Ended? {
        StopsAtFirstVerdictEnded(sc, p, jobId, pollStart, now, k, timer);
      } else {
        PollStopsAtFirstVerdict(sc, p, jobId, pollStart, o.t.at + POLL_INTERVAL, k + 1, o.next);
        StopsAtFirstVerdictContinues(sc, p, jobId, pollStart, now, k, timer);
      }
    }
  }

  /**
   * The last read of the history `h` shows no code, an unsettled
   * `in_progress` status and a feeding card, more than the card-feed timeout
   * after the first read of its feeding episode.
   */
  ghost predicate StuckHistory(h: seq<Tick>) {
    && |h| > 0
    && !HasCode(h[|h| - 1].status) && !Settled(h[|h| - 1].status)
    && Contains(h[|h| - 1].status.printStatus, "in_progress") && IsFeeding(h[|h| - 1].status)
    && h[|h| - 1].at > h[EpisodeStart(h)].at + CARD_FEED_TIMEOUT
  }

  /** The poll read something, its last call is the cancel, and the history up to its last read is stuck. */
  ghost predicate StuckAtEnd(run: PollRun, past: seq<Tick>, p: CardPrinter, jobId: int) {
    && |run.ticks| > 0
    && run.calls != [] && run.calls[|run.calls| - 1] == Cancel(p, jobId)
    && StuckHistory(past + run.ticks)
  }

  /** A tick that ends with a cancel leaves a stuck history. */
  lemma CancelTickIsStuck(sc: AttemptScript, p: CardPrinter, jobId: int, now: nat, k: nat, timer: FeedTimer, past: seq<Tick>)
    requires TimerAgrees(past, timer)
    ensures var o := TickAt(sc, p, jobId, now, k, timer);
      o.Ended? && Cancel(p, jobId) in o.calls ==>
        && o.calls == [GetJobStatus(p, jobId), Cancel(p, jobId)] && |o.ticks| == 1
        && StuckHistory(past + o.ticks)
  {
    var o := TickAt(sc, p, jobId, now, k, timer);
    var obs := sc.jobStatus(k);
    if o.Ended? && Cancel(p, jobId) in o.calls {
      var t := Tick(now + obs.latency, obs.reply.value);
      assert o.ticks == [t];
      TimerStep(past, timer, t);
    }
  }

  /** A stuck end of the rest of a poll is a stuck end of the whole poll. */
  lemma StuckAtEndPrefix(run: PollRun, rest: PollRun, past: seq<Tick>, t: Tick, p: CardPrinter, jobId: int)
    requires run.calls == [GetJobStatus(p, jobId), Delay(POLL_INTERVAL)] + rest.calls && run.ticks == [t] + rest.ticks
    requires Cancel(p, jobId) in rest.calls ==> StuckAtEnd(rest, past + [t], p, jobId)
    ensures Cancel(p, jobId) in run.calls ==> StuckAtEnd(run, past, p, jobId)
  {
    assert past + run.ticks == (past + [t]) + rest.ticks;
  }

  /** What `CancelOnlyWhenStuckFrom` promises: a cancel in the poll means the poll ended stuck. */
  ghost predicate CancelSound(run: PollRun, past: seq<Tick>, p: CardPrinter, jobId: int) {
    Cancel(p, jobId) in run.calls ==> StuckAtEnd(run, past, p, jobId)
  }

  /** The timer a tick that goes on hands to the next one agrees with the history including its read. */
  lemma TimerAgreesNext(sc: AttemptScript, p: CardPrinter, jobId: int, now: nat, k: nat, timer: FeedTimer, past: seq<Tick>)
    requires TimerAgrees(past, timer) && TickAt(sc, p, jobId, now, k, timer).Continues?
    ensures var o := TickAt(sc, p, jobId, now, k, timer);
      TimerAgrees(past + [o.t], o.next)
  {
    ContinuesTick(sc, p, jobId, now, k, timer);
    TimerStep(past, timer, TickAt(sc, p, jobId, now, k, timer).t);
  }

  lemma CancelOnlyWhenStuckEnded(sc: AttemptScript, p: CardPrinter, jobId: int, pollStart: nat, now: nat, k: nat,
                                 timer: FeedTimer, past: seq<Tick>)
    requires TimerAgrees(past, timer)
    requires now <= pollStart + MAX_POLLING_TIME && TickAt(sc, p, jobId, now, k, timer).Ended?
    ensures CancelSound(PollFrom(sc, p, jobId, pollStart, now, k, timer), past, p, jobId)
  {
    PollFromEnded(sc, p, jobId, pollStart, now, k, timer);
    CancelTickIsStuck(sc, p, jobId, now, k, timer, past);
  }

  lemma CancelOnlyWhenStuckContinues(sc: AttemptScript, p: CardPrinter, jobId: int, pollStart: nat, now: nat, k: nat,
                                     timer: FeedTimer, past: seq<Tick>)
    requires now <= pollStart + MAX_POLLING_TIME && TickAt(sc, p, jobId, now, k, timer).Continues?
    requires var o := TickAt(sc, p, jobId, now, k, timer);
      CancelSound(PollFrom(sc, p, jobId, pollStart, o.t.at + POLL_INTERVAL, k + 1, o.next), past + [o.t], p, jobId)
    ensures CancelSound(PollFrom(sc, p, jobId, pollStart, now, k, timer), past, p, jobId)
  {
    var o := TickAt(sc, p, jobId, now, k, timer);
    PollFromContinues(sc, p, jobId, pollStart, now, k, timer);
    StuckAtEndPrefix(PollFrom(sc, p, jobId, pollStart, now, k, timer), PollFrom(sc, p, jobId, pollStart, o.t.at + POLL_INTERVAL, k + 1, o.next),
                     past, o.t, p, jobId);
  }

  /**
   * A cancel is issued only on a read that shows no code, an unsettled
   * `in_progress` status and a feeding card, more than the card-feed
   * timeout after the first read of the feeding episode it belongs to;
   * and it is the poll's last call. `past` are the reads before this tick.
   */
  lemma {:induction false} CancelOnlyWhenStuckFrom(sc: AttemptScript, p: CardPrinter, jobId: int, pollStart: nat, now: nat, k: nat,
                                                   timer: FeedTimer, past: seq<Tick>)
    requires TimerAgrees(past, timer)
    ensures CancelSound(PollFrom(sc, p, jobId, pollStart, now, k, timer), past, p, jobId)
    decreases pollStart + MAX_POLLING_TIME - now
  {
    if now <= pollStart + MAX_POLLING_TIME {
      var o := TickAt(sc, p, jobId, now, k, timer);
      if o.Ended? {
        CancelOnlyWhenStuckEnded(sc, p, jobId, pollStart, now, k, timer, past);
      } else {
        TimerAgreesNext(sc, p, jobId, now, k, timer, past);
        CancelOnlyWhenStuckFrom(sc, p, jobId, pollStart, o.t.at + POLL_INTERVAL, k + 1, o.next, past + [o.t]);
        CancelOnlyWhenStuckContinues(sc, p, jobId, pollStart, now, k, timer, past);
      }
    }
  }

  /** `CancelOnlyWhenStuckFrom` for a whole poll. */
  lemma CancelOnlyWhenStuck(sc: AttemptScript, p: CardPrinter, jobId: int, now: nat, k: nat)
    ensures var run := Poll(sc, p, jobId, now, k);
      Cancel(p, jobId) in run.calls ==>
        && run.calls[|run.calls| - 1] == Cancel(p, jobId)
        && StuckHistory(run.ticks)
  {
    var run := Poll(sc, p, jobId, now, k);
    CancelOnlyWhenStuckFrom(sc, p, jobId, now, now, k, FeedTimer(false, now), []);
    assert CancelSound(run, [], p, jobId);
    assert [] + run.ticks == run.ticks;
  }

  /** What `StuckReadCancelsFrom` promises: a poll whose history (after the reads `past`) ends stuck ends with the cancel. */
  ghost predicate StuckCancels(run: PollRun, past: seq<Tick>, p: CardPrinter, jobId: int) {
    |run.ticks| > 0 && StuckHistory(past + run.ticks) ==> run.calls != [] && run.calls[|run.calls| - 1] == Cancel(p, jobId)
  }

  /** With the timer agreeing with the earlier reads, a read's history is stuck exactly when its verdict is to cancel. */
  lemma StuckIffCancelVerdict(past: seq<Tick>, timer: FeedTimer, t: Tick)
    requires TimerAgrees(past, timer)
    ensures StuckHistory(past + [t]) <==> TickVerdict(t.status, t.at, Restart(timer, t.at)) == CancelJob
  {
    TimerStep(past, timer, t);
    var h := past + [t];
    assert h[|h| - 1] == t;
  }

  /** A read that was not stuck, before a rest of the poll that cancels when it ends stuck, keeps that so. */
  lemma StuckCancelsPrefix(run: PollRun, rest: PollRun, past: seq<Tick>, t: Tick, p: CardPrinter, jobId: int)
    requires run.calls == [GetJobStatus(p, jobId), Delay(POLL_INTERVAL)] + rest.calls && run.ticks == [t] + rest.ticks
    requires !StuckHistory(past + [t])
    requires StuckCancels(rest, past + [t], p, jobId)
    ensures StuckCancels(run, past, p, jobId)
  {
    assert past + run.ticks == (past + [t]) + rest.ticks;
    if rest.ticks == [] {
      assert past + run.ticks == past + [t];
    }
  }

  lemma StuckCancelsEnded(sc: AttemptScript, p: CardPrinter, jobId: int, pollStart: nat, now: nat, k: nat,
                          timer: FeedTimer, past: seq<Tick>)
    requires TimerAgrees(past, timer)
    requires now <= pollStart + MAX_POLLING_TIME && TickAt(sc, p, jobId, now, k, timer).Ended?
    ensures StuckCancels(PollFrom(sc, p, jobId, pollStart, now, k, timer), past, p, jobId)
  {
    var run := PollFrom(sc, p, jobId, pollStart, now, k, timer);
    PollFromEnded(sc, p, jobId, pollStart, now, k, timer);
    var obs := sc.jobStatus(k);
    if obs.reply.Returns? {
      var t := Tick(now + obs.latency, obs.reply.value);
      StuckIffCancelVerdict(past, timer, t);
      assert run.ticks == [t];
    } else {
      assert run.ticks == [];
    }
  }

  lemma StuckCancelsContinues(sc: AttemptScript, p: CardPrinter, jobId: int, pollStart: nat, now: nat, k: nat,
                              timer: FeedTimer, past: seq<Tick>)
    requires TimerAgrees(past, timer)
    requires now <= pollStart + MAX_POLLING_TIME && TickAt(sc, p, jobId, now, k, timer).Continues?
    requires var o := TickAt(sc, p, jobId, now, k, timer);
      StuckCancels(PollFrom(sc, p, jobId, pollStart, o.t.at + POLL_INTERVAL, k + 1, o.next), past + [o.t], p, jobId)
    ensures StuckCancels(PollFrom(sc, p, jobId, pollStart, now, k, timer), past, p, jobId)
  {
    var o := TickAt(sc, p, jobId, now, k, timer);
    PollFromContinues(sc, p, jobId, pollStart, now, k, timer);
    ContinuesTick(sc, p, jobId, now, k, timer);
    StuckIffCancelVerdict(past, timer, o.t);
    StuckCancelsPrefix(PollFrom(sc, p, jobId, pollStart, now, k, timer), PollFrom(sc, p, jobId, pollStart, o.t.at + POLL_INTERVAL, k + 1, o.next),
                       past, o.t, p, jobId);
  }

  /** A poll whose reads (after the reads `past`) end with the card stuck ends with the cancel. */
  lemma {:induction false} StuckReadCancelsFrom(sc: AttemptScript, p: CardPrinter, jobId: int, pollStart: nat, now: nat, k: nat,
                                                timer: FeedTimer, past: seq<Tick>)
    requires TimerAgrees(past, timer)
    ensures StuckCancels(PollFrom(sc, p, jobId, pollStart, now, k, timer), past, p, jobId)
    decreases pollStart + MAX_POLLING_TIME - now
  {
    if now <= pollStart + MAX_POLLING_TIME {
      var o := TickAt(sc, p, jobId, now, k, timer);
      if o.Ended? {
        StuckCancelsEnded(sc, p, jobId, pollStart, now, k, timer, past);
      } else {
        var next, past' := o.t.at + POLL_INTERVAL, past + [o.t];
        TimerAgreesNext(sc, p, jobId, now, k, timer, past);
        StuckReadCancelsFrom(sc, p, jobId, pollStart, next, k + 1, o.next, past');
        StuckCancelsContinues(sc, p, jobId, pollStart, now, k, timer, past);
      }
    }
  }

  /**
   * The converse of `CancelOnlyWhenStuck` for a whole poll: a poll whose
   * last read finds the card stuck ends with the cancel. Together the two
   * say the poll cancels exactly when its history of reads ends stuck.
   */
  lemma StuckReadCancels(sc: AttemptScript, p: CardPrinter, jobId: int, now: nat, k: nat)
    ensures var run := Poll(sc, p, jobId, now, k);
      |run.ticks| > 0 && StuckHistory(run.ticks) ==> run.calls != [] && run.calls[|run.calls| - 1] == Cancel(p, jobId)
  {
    var run := Poll(sc, p, jobId, now, k);
    StuckReadCancelsFrom(sc, p, jobId, now, now, k, FeedTimer(false, now), []);
    assert [] + run.ticks == run.ticks;
  }

  /** The poll cancels the job exactly when its reads end with the card stuck; the cancel is then its last call. */
  lemma CancelIffStuck(sc: AttemptScript, p: CardPrinter, jobId: int, now: nat, k: nat)
    ensures var run := Poll(sc, p, jobId, now, k);
      && (Cancel(p, jobId) in run.calls <==> |run.ticks| > 0 && StuckHistory(run.ticks))
      && (Cancel(p, jobId) in run.calls ==> run.calls[|run.calls| - 1] == Cancel(p, jobId))
  {
    CancelOnlyWhenStuck(sc, p, jobId, now, k);
    StuckReadCancels(sc, p, jobId, now, k);
  }

  /**
   * Why a poll that started its tick `k` throws: it reached the top of a
   * tick past the ceiling (no status read on that tick, no cancel at all),
   * or the status read threw, or the cancel threw.
   */
  ghost predicate ThrowExplained(run: PollRun, sc: AttemptScript, p: CardPrinter, jobId: int, pollStart: nat, k: nat)
    requires run.result.Throws?
  {
    || (&& run.result.fault == PollTimeoutFault()
        && run.now > pollStart + MAX_POLLING_TIME
        && Cancel(p, jobId) !in run.calls
        && (run.calls == [] || run.calls[|run.calls| - 1] == Delay(POLL_INTERVAL)))
    || (&& k < run.tick && run.calls != [] && run.calls[|run.calls| - 1] == GetJobStatus(p, jobId)
        && sc.jobStatus(run.tick - 1).reply == run.result)
    || (run.calls != [] && run.calls[|run.calls| - 1] == Cancel(p, jobId) && sc.cancel == Throws(run.result.fault))
  }

  /** A tick that ends the poll with a fault: the read threw, or the cancel did. */
  lemma EndedTickThrows(sc: AttemptScript, p: CardPrinter, jobId: int, now: nat, k: nat, timer: FeedTimer)
    ensures var o := TickAt(sc, p, jobId, now, k, timer);
      o.Ended? && o.result.Throws? ==>
        || (o.calls == [GetJobStatus(p, jobId)] && sc.jobStatus(k).reply == o.result)
        || (o.calls == [GetJobStatus(p, jobId), Cancel(p, jobId)] && sc.cancel == Throws(o.result.fault))
  {
  }

  /** An explained throw of the rest of a poll explains the throw of the whole poll. */
  lemma ThrowExplainedPrefix(run: PollRun, rest: PollRun, sc: AttemptScript, p: CardPrinter, jobId: int, pollStart: nat, k: nat)
    requires run.result == rest.result && run.now == rest.now && run.tick == rest.tick
    requires run.calls == [GetJobStatus(p, jobId), Delay(POLL_INTERVAL)] + rest.calls
    requires rest.result.Throws? ==> ThrowExplained(rest, sc, p, jobId, pollStart, k + 1)
    ensures run.result.Throws? ==> ThrowExplained(run, sc, p, jobId, pollStart, k)
  {
    assert rest.calls != [] ==> run.calls[|run.calls| - 1] == rest.calls[|rest.calls| - 1];
  }

  /** `PollThrows` for a poll whose first tick ends it. */
  lemma PollThrowsEnded(sc: AttemptScript, p: CardPrinter, jobId: int, pollStart: nat, now: nat, k: nat, timer: FeedTimer)
    requires now <= pollStart + MAX_POLLING_TIME && TickAt(sc, p, jobId, now, k, timer).Ended?
    ensures var run := PollFrom(sc, p, jobId, pollStart, now, k, timer);
      run.result.Throws? ==> ThrowExplained(run, sc, p, jobId, pollStart, k)
  {
    PollFromEnded(sc, p, jobId, pollStart, now, k, timer);
    EndedTickThrows(sc, p, jobId, now, k, timer);
  }

  /** `PollThrows` for a poll whose first tick goes on, given it for the rest. */
  lemma PollThrowsContinues(sc: AttemptScript, p: CardPrinter, jobId: int, pollStart: nat, now: nat, k: nat, timer: FeedTimer)
    requires now <= pollStart + MAX_POLLING_TIME && TickAt(sc, p, jobId, now, k, timer).Continues?
    requires var o := TickAt(sc, p, jobId, now, k, timer);
      var rest := PollFrom(sc, p, jobId, pollStart, o.t.at + POLL_INTERVAL, k + 1, o.next);
      rest.result.Throws? ==> ThrowExplained(rest, sc, p, jobId, pollStart, k + 1)
    ensures var run := PollFrom(sc, p, jobId, pollStart, now, k, timer);
      run.result.Throws? ==> ThrowExplained(run, sc, p, jobId, pollStart, k)
  {
    var o := TickAt(sc, p, jobId, now, k, timer);
    PollFromContinues(sc, p, jobId, pollStart, now, k, timer);
    ThrowExplainedPrefix(PollFrom(sc, p, jobId, pollStart, now, k, timer), PollFrom(sc, p, jobId, pollStart, o.t.at + POLL_INTERVAL, k + 1, o.next),
                         sc, p, jobId, pollStart, k);
  }

  /** Every fault a poll ends with is explained by `ThrowExplained`. */
  lemma {:induction false} PollThrows(sc: AttemptScript, p: CardPrinter, jobId: int, pollStart: nat, now: nat, k: nat, timer: FeedTimer)
    ensures var run := PollFrom(sc, p, jobId, pollStart, now, k, timer);
      run.result.Throws? ==> ThrowExplained(run, sc, p, jobId, pollStart, k)
    decreases pollStart + MAX_POLLING_TIME - now
  {
    if now <= pollStart + MAX_POLLING_TIME {
      var o := TickAt(sc, p, jobId, now, k, timer);
      if o.Ended? {
        PollThrowsEnded(sc, p, jobId, pollStart, now, k, timer);
      } else {
        PollThrows(sc, p, jobId, pollStart, o.t.at + POLL_INTERVAL, k + 1, o.next);
        PollThrowsContinues(sc, p, jobId, pollStart, now, k, timer);
      }
    }
  }

  /** The read bound of `PollReadBound` for the poll from the tick top at `now`. */
  ghost predicate ReadBound(run: PollRun, pollStart: nat, now: nat, k: nat) {
    && |run.ticks| <= run.tick - k
    && (now > pollStart + MAX_POLLING_TIME ==> run.tick == k)
    && (now <= pollStart + MAX_POLLING_TIME ==> run.tick - k <= (pollStart + MAX_POLLING_TIME - now) / POLL_INTERVAL + 1)
  }

  lemma ReadBoundEnded(sc: AttemptScript, p: CardPrinter, jobId: int, pollStart: nat, now: nat, k: nat, timer: FeedTimer)
    requires now <= pollStart + MAX_POLLING_TIME && TickAt(sc, p, jobId, now, k, timer).Ended?
    ensures ReadBound(PollFrom(sc, p, jobId, pollStart, now, k, timer), pollStart, now, k)
  {
    PollFromEnded(sc, p, jobId, pollStart, now, k, timer);
    EndedTickCalls(sc, p, jobId, now, k, timer);
  }

  lemma ReadBoundContinues(sc: AttemptScript, p: CardPrinter, jobId: int, pollStart: nat, now: nat, k: nat, timer: FeedTimer)
    requires now <= pollStart + MAX_POLLING_TIME && TickAt(sc, p, jobId, now, k, timer).Continues?
    requires var o := TickAt(sc, p, jobId, now, k, timer);
      ReadBound(PollFrom(sc, p, jobId, pollStart, o.t.at + POLL_INTERVAL, k + 1, o.next), pollStart, o.t.at + POLL_INTERVAL, k + 1)
    ensures ReadBound(PollFrom(sc, p, jobId, pollStart, now, k, timer), pollStart, now, k)
  {
    var o := TickAt(sc, p, jobId, now, k, timer);
    PollFromContinues(sc, p, jobId, pollStart, now, k, timer);
    var next := o.t.at + POLL_INTERVAL;
    if next <= pollStart + MAX_POLLING_TIME {
      var d := pollStart + MAX_POLLING_TIME - now;
      var d' := pollStart + MAX_POLLING_TIME - next;
      assert d' <= d - POLL_INTERVAL;
      assert d' / POLL_INTERVAL + 1 <= d / POLL_INTERVAL;
    }
  }

  /**
   * Polling terminates: from a tick top at `now` it makes at most one
   * status read per poll interval left before the ceiling, plus one.
   */
  lemma {:induction false} PollReadBound(sc: AttemptScript, p: CardPrinter, jobId: int, pollStart: nat, now: nat, k: nat, timer: FeedTimer)
    ensures ReadBound(PollFrom(sc, p, jobId, pollStart, now, k, timer), pollStart, now, k)
    decreases pollStart + MAX_POLLING_TIME - now
  {
    if now <= pollStart + MAX_POLLING_TIME {
      var o := TickAt(sc, p, jobId, now, k, timer);
      if o.Ended? {
        ReadBoundEnded(sc, p, jobId, pollStart, now, k, timer);
      } else {
        PollReadBound(sc, p, jobId, pollStart, o.t.at + POLL_INTERVAL, k + 1, o.next);
        ReadBoundContinues(sc, p, jobId, pollStart, now, k, timer);
      }
    }
  }

  /** A fresh poll reads the status at most 61 times. */
  lemma PollReadsAtMost61(sc: AttemptScript, p: CardPrinter, jobId: int, now: nat, k: nat)
    ensures Poll(sc, p, jobId, now, k).tick - k <= MAX_POLLING_TIME / POLL_INTERVAL + 1
  {
    PollReadBound(sc, p, jobId, now, now, k, FeedTimer(false, now));
  }

  // ---------------------------------------------------------------------------
  // Two scenarios: a card stuck in the feeder, and a job that never settles

  /** `n` rounds of a status read followed by the poll interval's delay. */
  function ReadsAndDelays(p: CardPrinter, jobId: int, n: nat): (calls: seq<Call>)
    ensures |calls| == 2 * n
    ensures forall i :: 0 <= i < 2 * n ==> calls[i] == if i % 2 == 0 then GetJobStatus(p, jobId) else Delay(POLL_INTERVAL)
  {
    if n == 0 then [] else [GetJobStatus(p, jobId), Delay(POLL_INTERVAL)] + ReadsAndDelays(p, jobId, n - 1)
  }

  /** One more round in front of `n` rounds and a tail. */
  lemma ReadsAndDelaysCons(p: CardPrinter, jobId: int, n: nat, tail: seq<Call>)
    ensures [GetJobStatus(p, jobId), Delay(POLL_INTERVAL)] + (ReadsAndDelays(p, jobId, n) + tail) == ReadsAndDelays(p, jobId, n + 1) + tail
  {
    assert ReadsAndDelays(p, jobId, n + 1) == [GetJobStatus(p, jobId), Delay(POLL_INTERVAL)] + ReadsAndDelays(p, jobId, n);
  }

  /** From read `k` on, every status read returns `s` at once. */
  ghost predicate AlwaysReads(sc: AttemptScript, k: nat, s: JobStatusInfo) {
    forall j :: k <= j ==> sc.jobStatus(j) == Observation(0, Returns(s))
  }

  /** A snapshot of a job still printing with its card in the feeder. */
  predicate FeedingInProgress(s: JobStatusInfo) {
    !HasCode(s) && !Settled(s) && Contains(s.printStatus, "in_progress") && IsFeeding(s)
  }

  /** The reply a cancel on `s` ends the poll with. */
  function CancelReply(sc: AttemptScript, s: JobStatusInfo): Reply<JobStatusInfo> {
    if sc.cancel.Throws? then Throws(sc.cancel.fault) else Returns(s)
  }

  /** The stuck-card poll from its `i`-th read on, the feed timer having started at `t0`. */
  ghost predicate StuckCardRun(run: PollRun, sc: AttemptScript, p: CardPrinter, jobId: int, t0: nat, k: nat, s: JobStatusInfo, i: nat)
    requires i <= 31
  {
    && run.calls == ReadsAndDelays(p, jobId, 31 - i) + [GetJobStatus(p, jobId), Cancel(p, jobId)]
    && run.result == CancelReply(sc, s) && run.now == t0 + 31000 && run.tick == k + 32
  }

  /** The 32nd read is more than the card-feed timeout after the first, and cancels. */
  lemma StuckCardLast(sc: AttemptScript, p: CardPrinter, jobId: int, t0: nat, k: nat, s: JobStatusInfo)
    requires AlwaysReads(sc, k, s) && FeedingInProgress(s)
    ensures StuckCardRun(PollFrom(sc, p, jobId, t0, t0 + 31000, k + 31, FeedTimer(true, t0)), sc, p, jobId, t0, k, s, 31)
  {
    assert sc.jobStatus(k + 31) == Observation(0, Returns(s));
    assert TickVerdict(s, t0 + 31000, t0) == CancelJob;
    PollFromEnded(sc, p, jobId, t0, t0 + 31000, k + 31, FeedTimer(true, t0));
  }

  /** The `i`-th read of the stuck card, within the card-feed timeout, keeps polling with the timer unchanged. */
  lemma StuckCardTick(sc: AttemptScript, p: CardPrinter, jobId: int, t0: nat, k: nat, s: JobStatusInfo, i: nat)
    requires AlwaysReads(sc, k, s) && FeedingInProgress(s) && i <= 30
    ensures TickAt(sc, p, jobId, t0 + 1000 * i, k + i, FeedTimer(true, t0)) == Continues(Tick(t0 + 1000 * i, s), FeedTimer(true, t0))
  {
    assert sc.jobStatus(k + i) == Observation(0, Returns(s));
    assert TickVerdict(s, t0 + 1000 * i, t0) == KeepPolling;
  }

  /** An earlier read is within the card-feed timeout and keeps polling. */
  lemma StuckCardStep(sc: AttemptScript, p: CardPrinter, jobId: int, t0: nat, k: nat, s: JobStatusInfo, i: nat)
    requires AlwaysReads(sc, k, s) && FeedingInProgress(s) && 1 <= i < 31
    requires StuckCardRun(PollFrom(sc, p, jobId, t0, t0 + 1000 * (i + 1), k + (i + 1), FeedTimer(true, t0)), sc, p, jobId, t0, k, s, i + 1)
    ensures StuckCardRun(PollFrom(sc, p, jobId, t0, t0 + 1000 * i, k + i, FeedTimer(true, t0)), sc, p, jobId, t0, k, s, i)
  {
    var now := t0 + 1000 * i;
    StuckCardTick(sc, p, jobId, t0, k, s, i);
    PollFromContinues(sc, p, jobId, t0, now, k + i, FeedTimer(true, t0));
    assert k + i + 1 == k + (i + 1) && now + POLL_INTERVAL == t0 + 1000 * (i + 1);
    ReadsAndDelaysCons(p, jobId, 30 - i, [GetJobStatus(p, jobId), Cancel(p, jobId)]);
  }

  lemma {:induction false} StuckCardFrom(sc: AttemptScript, p: CardPrinter, jobId: int, t0: nat, k: nat, s: JobStatusInfo, i: nat)
    requires AlwaysReads(sc, k, s) && FeedingInProgress(s) && 1 <= i <= 31
    ensures StuckCardRun(PollFrom(sc, p, jobId, t0, t0 + 1000 * i, k + i, FeedTimer(true, t0)), sc, p, jobId, t0, k, s, i)
    decreases 31 - i
  {
    if i == 31 {
      StuckCardLast(sc, p, jobId, t0, k, s);
    } else {
      StuckCardFrom(sc, p, jobId, t0, k, s, i + 1);
      StuckCardStep(sc, p, jobId, t0, k, s, i);
    }
  }

  /**
   * A card that stays in the feeder while the job is in progress, with
   * status reads that take no time: the poll reads 31 times with the poll
   * interval between, cancels the job on the 32nd read, 31 seconds after
   * the first, and ends with the snapshot (or the cancel's fault).
   */
  lemma StuckCardIsCancelled(sc: AttemptScript, p: CardPrinter, jobId: int, now: nat, k: nat, s: JobStatusInfo)
    requires AlwaysReads(sc, k, s) && FeedingInProgress(s)
    ensures var run := Poll(sc, p, jobId, now, k);
      && run.calls == ReadsAndDelays(p, jobId, 31) + [GetJobStatus(p, jobId), Cancel(p, jobId)]
      && run.result == CancelReply(sc, s) && run.now == now + 31000 && run.tick == k + 32
  {
    var timer := FeedTimer(false, now);
    assert sc.jobStatus(k) == Observation(0, Returns(s));
    assert TickVerdict(s, now, now) == KeepPolling;
    PollFromContinues(sc, p, jobId, now, now, k, timer);
    StuckCardFrom(sc, p, jobId, now, k, s, 1);
    assert now + 1000 * 1 == now + POLL_INTERVAL && k + 1 == k + 1;
  }

  /** A snapshot that neither ends polling nor can make it cancel. */
  predicate Idle(s: JobStatusInfo) {
    !HasCode(s) && !Settled(s) && !(Contains(s.printStatus, "in_progress") && IsFeeding(s))
  }

  /** The idle poll from its `i`-th read on. */
  ghost predicate IdleRun(run: PollRun, p: CardPrinter, jobId: int, t0: nat, k: nat, i: nat)
    requires i <= 61
  {
    && run.calls == ReadsAndDelays(p, jobId, 61 - i)
    && run.result == Throws(PollTimeoutFault()) && run.now == t0 + 61000 && run.tick == k + 61
  }

  /** An idle read before the ceiling keeps polling. */
  lemma IdleStep(sc: AttemptScript, p: CardPrinter, jobId: int, t0: nat, k: nat, s: JobStatusInfo, i: nat, timer: FeedTimer)
    requires AlwaysReads(sc, k, s) && Idle(s) && i < 61
    requires IdleRun(PollFrom(sc, p, jobId, t0, t0 + 1000 * (i + 1), k + (i + 1), FeedTimer(IsFeeding(s), Restart(timer, t0 + 1000 * i))),
                     p, jobId, t0, k, i + 1)
    ensures IdleRun(PollFrom(sc, p, jobId, t0, t0 + 1000 * i, k + i, timer), p, jobId, t0, k, i)
  {
    var now := t0 + 1000 * i;
    assert sc.jobStatus(k + i) == Observation(0, Returns(s));
    assert TickVerdict(s, now, Restart(timer, now)) == KeepPolling;
    PollFromContinues(sc, p, jobId, t0, now, k + i, timer);
    assert k + i + 1 == k + (i + 1) && now + POLL_INTERVAL == t0 + 1000 * (i + 1);
  }

  lemma {:induction false} IdleFrom(sc: AttemptScript, p: CardPrinter, jobId: int, t0: nat, k: nat, s: JobStatusInfo, i: nat, timer: FeedTimer)
    requires AlwaysReads(sc, k, s) && Idle(s) && i <= 61
    ensures IdleRun(PollFrom(sc, p, jobId, t0, t0 + 1000 * i, k + i, timer), p, jobId, t0, k, i)
    decreases 61 - i
  {
    if i < 61 {
      IdleFrom(sc, p, jobId, t0, k, s, i + 1, FeedTimer(IsFeeding(s), Restart(timer, t0 + 1000 * i)));
      IdleStep(sc, p, jobId, t0, k, s, i, timer);
    }
  }

  /**
   * A job whose status never settles, shows no code and never has a card
   * stuck in the feeder, with status reads that take no time: the poll reads
   * 61 times, once a second, never cancels, and throws the polling timeout
   * at the top of the tick 61 seconds after it started.
   */
  lemma IdlePollTimesOut(sc: AttemptScript, p: CardPrinter, jobId: int, now: nat, k: nat, s: JobStatusInfo)
    requires AlwaysReads(sc, k, s) && Idle(s)
    ensures var run := Poll(sc, p, jobId, now, k);
      && run.calls == ReadsAndDelays(p, jobId, 61)
      && Cancel(p, jobId) !in run.calls
      && run.result == Throws(PollTimeoutFault()) && run.now == now + 61000 && run.tick == k + 61
  {
    IdleFrom(sc, p, jobId, now, k, s, 0, FeedTimer(false, now));
    var calls := ReadsAndDelays(p, jobId, 61);
    assert forall i :: 0 <= i < |calls| ==> calls[i] != Cancel(p, jobId);
  }
}
