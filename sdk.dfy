/**
 * The printer as the template service sees it: the Zebra card SDK objects
 * (connection, card printer, template), the discovered printer they were
 * obtained from, and the system clock. The SDK is opaque, so a `Device`
 * replays a script: what each call returns or throws in each attempt. Every
 * call it receives is appended to a ghost log, which is what the service's
 * contracts talk about.
 */
module Sdk {
  import opened Wrappers

  /** `AlarmInfo` / `ErrorInfo` of a job status: code 0 means none. */
  datatype Info = Info(value: int, description: string)

  /** One `JobStatusInfo` snapshot returned by `GetJobStatus`. */
  datatype JobStatusInfo = JobStatusInfo(printStatus: string, cardPosition: string, alarmInfo: Info, errorInfo: Info)

  /** The .NET exception classes the code distinguishes; `Plain` is `System.Exception` itself. */
  datatype ExceptionType = Plain | FileNotFound | Timeout | InvalidOperation | Argument | Overflow | Other

  /** A thrown exception: its class, `Message` and `InnerException`. */
  datatype Fault = Fault(kind: ExceptionType, message: string, inner: Option<Fault>)

  /** What one SDK call does: return a value or throw. */
  datatype Reply<+T> = Returns(value: T) | Throws(fault: Fault)

  /** The `Connection` obtained by the n-th `GetConnection` call. */
  datatype Connection = Connection(id: nat)

  /** The `ZebraCardPrinter` created over connection n. */
  datatype CardPrinter = CardPrinter(id: nat)

  /** A `GetJobStatus` reply and how long the call took. */
  datatype Observation = Observation(latency: nat, reply: Reply<JobStatusInfo>)

  /** How the device answers each call of one attempt (the n-th connection). */
  datatype AttemptScript = AttemptScript(
    connect: Reply<()>,               // DiscoveredPrinter.GetConnection()
    open: Reply<()>,                  // Connection.Open()
    initialize: Reply<()>,            // ZebraCardPrinterFactory.GetInstance(connection)
    printerStatus: Reply<string>,     // GetPrinterStatus().Status
    deleteTemplate: Reply<()>,        // DeleteTemplateFileData(name)
    saveTemplate: Reply<()>,          // SaveTemplateFileData(name, data)
    templateFields: Reply<seq<string>>, // GetTemplateDataFields(data)
    generateJob: Reply<()>,           // GenerateTemplateJob(name, fieldData)
    printTemplate: Reply<int>,        // PrintTemplate(copies, job): the job id
    jobStatus: nat -> Observation,    // the k-th GetJobStatus(jobId) of this attempt
    cancel: Reply<()>,                // Cancel(jobId)
    destroy: Reply<()>,               // ZebraCardPrinter.Destroy()
    close: Reply<()>)                 // Connection.Close()

  /** The caller's field map: a C# `Dictionary<string, string>` whose values may be null (None). */
  type FieldData = map<string, Option<string>>

  /** One call the device received, with the handle and arguments it was given. */
  datatype Call =
    | Delay(ms: nat)
    | GetConnection
    | Open(connection: Connection)
    | GetInstance(connection: Connection)
    | GetPrinterStatus(printer: CardPrinter)
    | DeleteTemplateFileData(printer: CardPrinter, name: string)
    | SaveTemplateFileData(printer: CardPrinter, name: string, data: string)
    | GetTemplateDataFields(printer: CardPrinter, data: string)
    | GenerateTemplateJob(printer: CardPrinter, name: string, fieldData: FieldData)
    | PrintTemplate(printer: CardPrinter, copies: int)
    | GetJobStatus(printer: CardPrinter, jobId: int)
    | Cancel(printer: CardPrinter, jobId: int)
    | Destroy(printer: CardPrinter)
    | Close(connection: Connection)

  /** Number of occurrences of `x` in `s`. */
  function Count<T(==)>(s: seq<T>, x: T): (n: nat)
    ensures n <= |s|
    ensures n == 0 <==> x !in s
  {
    if s == [] then 0 else (if s[0] == x then 1 else 0) + Count(s[1..], x)
  }

  lemma {:induction false} CountAppend<T>(a: seq<T>, b: seq<T>, x: T)
    ensures Count(a + b, x) == Count(a, x) + Count(b, x)
    decreases |a|
  {
    if a == [] {
      assert a + b == b;
    } else {
      assert (a + b)[1..] == a[1..] + b;
      CountAppend(a[1..], b, x);
    }
  }

  /**
   * The scripted printer, SDK and clock. `connections` counts GetConnection
   * calls; the current attempt is answered from `script(connections)`, and
   * `tick` counts its GetJobStatus calls. `now` is `Environment.TickCount`
   * as a monotone natural number: only `Delay` and the latency of status
   * reads move it.
   */
  class Device {
    const script: nat -> AttemptScript
    var connections: nat
    var tick: nat
    var now: nat
    ghost var log: seq<Call>

    constructor (script: nat -> AttemptScript, now: nat)
      ensures this.script == script && connections == 0 && tick == 0 && this.now == now && log == []
    {
      this.script := script;
      connections, tick, this.now := 0, 0, now;
      log := [];
    }

    function Current(): AttemptScript
      reads this
    {
      script(connections)
    }

    /** `Environment.TickCount`; reading the clock changes nothing. */
    function TickCount(): nat
      reads this
    {
      now
    }

    /** `await Task.Delay(ms)`. */
    method Delay(ms: nat)
      modifies this
      ensures now == old(now) + ms && connections == old(connections) && tick == old(tick)
      ensures log == old(log) + [Call.Delay(ms)]
    {
      now := now + ms;
      log := log + [Call.Delay(ms)];
    }

    /** `printer.GetConnection()`: a new connection object, the next attempt's script. */
    method GetConnection() returns (r: Reply<Connection>)
      modifies this
      ensures connections == old(connections) + 1 && tick == 0 && now == old(now)
      ensures log == old(log) + [Call.GetConnection]
      ensures r == match script(connections).connect
        case Returns(_) => Returns(Connection(connections))
        case Throws(f) => Throws(f)
    {
      connections, tick := connections + 1, 0;
      log := log + [Call.GetConnection];
      match script(connections).connect
      case Returns(_) => r := Returns(Connection(connections));
      case Throws(f) => r := Throws(f);
    }

    method Open(c: Connection) returns (r: Reply<()>)
      modifies this`log
      ensures log == old(log) + [Call.Open(c)] && r == Current().open
    {
      log := log + [Call.Open(c)];
      r := Current().open;
    }

    /** `ZebraCardPrinterFactory.GetInstance(connection)`. */
    method GetInstance(c: Connection) returns (r: Reply<CardPrinter>)
      modifies this`log
      ensures log == old(log) + [Call.GetInstance(c)]
      ensures r == match Current().initialize
        case Returns(_) => Returns(CardPrinter(c.id))
        case Throws(f) => Throws(f)
    {
      log := log + [Call.GetInstance(c)];
      match Current().initialize
      case Returns(_) => r := Returns(CardPrinter(c.id));
      case Throws(f) => r := Throws(f);
    }

    method GetPrinterStatus(p: CardPrinter) returns (r: Reply<string>)
      modifies this`log
      ensures log == old(log) + [Call.GetPrinterStatus(p)] && r == Current().printerStatus
    {
      log := log + [Call.GetPrinterStatus(p)];
      r := Current().printerStatus;
    }

    method DeleteTemplateFileData(p: CardPrinter, name: string) returns (r: Reply<()>)
      modifies this`log
      ensures log == old(log) + [Call.DeleteTemplateFileData(p, name)] && r == Current().deleteTemplate
    {
      log := log + [Call.DeleteTemplateFileData(p, name)];
      r := Current().deleteTemplate;
    }

    method SaveTemplateFileData(p: CardPrinter, name: string, data: string) returns (r: Reply<()>)
      modifies this`log
      ensures log == old(log) + [Call.SaveTemplateFileData(p, name, data)] && r == Current().saveTemplate
    {
      log := log + [Call.SaveTemplateFileData(p, name, data)];
      r := Current().saveTemplate;
    }

    method GetTemplateDataFields(p: CardPrinter, data: string) returns (r: Reply<seq<string>>)
      modifies this`log
      ensures log == old(log) + [Call.GetTemplateDataFields(p, data)] && r == Current().templateFields
    {
      log := log + [Call.GetTemplateDataFields(p, data)];
      r := Current().templateFields;
    }

    method GenerateTemplateJob(p: CardPrinter, name: string, fieldData: FieldData) returns (r: Reply<()>)
      modifies this`log
      ensures log == old(log) + [Call.GenerateTemplateJob(p, name, fieldData)] && r == Current().generateJob
    {
      log := log + [Call.GenerateTemplateJob(p, name, fieldData)];
      r := Current().generateJob;
    }

    method PrintTemplate(p: CardPrinter, copies: int) returns (r: Reply<int>)
      modifies this`log
      ensures log == old(log) + [Call.PrintTemplate(p, copies)] && r == Current().printTemplate
    {
      log := log + [Call.PrintTemplate(p, copies)];
      r := Current().printTemplate;
    }

    /** The next scripted status read of this attempt; the clock advances by its latency. */
    method GetJobStatus(p: CardPrinter, jobId: int) returns (r: Reply<JobStatusInfo>)
      modifies this
      ensures connections == old(connections) && tick == old(tick) + 1
      ensures now == old(now) + Current().jobStatus(old(tick)).latency
      ensures log == old(log) + [Call.GetJobStatus(p, jobId)] && r == Current().jobStatus(old(tick)).reply
    {
      var obs := Current().jobStatus(tick);
      tick := tick + 1;
      now := now + obs.latency;
      log := log + [Call.GetJobStatus(p, jobId)];
      r := obs.reply;
    }

    method Cancel(p: CardPrinter, jobId: int) returns (r: Reply<()>)
      modifies this`log
      ensures log == old(log) + [Call.Cancel(p, jobId)] && r == Current().cancel
    {
      log := log + [Call.Cancel(p, jobId)];
      r := Current().cancel;
    }

    method Destroy(p: CardPrinter) returns (r: Reply<()>)
      modifies this`log
      ensures log == old(log) + [Call.Destroy(p)] && r == Current().destroy
    {
      log := log + [Call.Destroy(p)];
      r := Current().destroy;
    }

    method Close(c: Connection) returns (r: Reply<()>)
      modifies this`log
      ensures log == old(log) + [Call.Close(c)] && r == Current().close
    {
      log := log + [Call.Close(c)];
      r := Current().close;
    }
  }
}
