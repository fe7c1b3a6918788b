/**
 * The state of an `HttpServer` as a value, and what each of its operations does to it:
 * the five coalescing signals (HttpServer.cs:16-20), one iteration of the listener loop
 * `ServerThreadProc` (HttpServer.cs:194-288), the commands other threads issue
 * (HttpServer.cs:290-323) and the completion of an accept (HttpServer.cs:87-100, 191).
 *
 * Threads are abstracted away: each operation is atomic, and the loop's blocking
 * waits for an outstanding accept (HttpServer.cs:220, 271) resolve it in one step.
 * An accept aborted by `Stop` or `Close` fails `EndGetContext`, so its callback
 * returns without raising Served.
 */
module Lifecycle {
  import opened Wrappers
  import opened Text
  import Pipeline

  datatype State = Active | Inactive | Waiting

  /** Indices of the events in the `WaitAny` array (HttpServer.cs:196). */
  const EvShutdown: nat := 0
  const EvSettings: nat := 1
  const EvStart: nat := 2
  const EvStop: nat := 3
  const EvServed: nat := 4
  const EventCount: nat := 5

  const DefaultPort: int := 8000
  const DefaultRootDir: string := "./"
  const UrlHead: string := "http://localhost:"

  /**
   * Everything the server's threads share. `pending` holds the five auto-reset
   * events; `outstanding` counts the `BeginGetContext` calls whose callback has not
   * run yet; `prefixes` is the listener's prefix list; `threadStarted` is
   * `serverThread != null`; `exited` says the loop has left; `logSink` and
   * `stateSink` say whether the callbacks are set, and `log` and `reports` record
   * what was passed to them.
   */
  datatype Server = Server(
    pending: seq<bool>,
    listening: bool,
    outstanding: nat,
    curState: State,
    port: int,
    rootDir: string,
    url: string,
    prefixes: seq<string>,
    threadStarted: bool,
    exited: bool,
    requestCount: int,
    logSink: bool,
    stateSink: bool,
    log: seq<string>,
    reports: seq<State>)

  predicate WellFormed(s: Server) {
    |s.pending| == EventCount
  }

  /** The state the constructor builds (HttpServer.cs:42-61); only Settings starts signalled. */
  function Init(): Server {
    Server([false, true, false, false, false], false, 0, State.Inactive, DefaultPort, DefaultRootDir,
           "", [], false, false, 0, false, false, [], [])
  }

  // ---------------------------------------------------------------------------
  // WaitAny

  /** The lowest index at or after `i` whose event is set. */
  function LowestFrom(p: seq<bool>, i: nat): (r: Option<nat>)
    requires i <= |p|
    ensures r.Some? ==> i <= r.value < |p| && p[r.value] && forall j :: i <= j < r.value ==> !p[j]
    ensures r.None? ==> forall j :: i <= j < |p| ==> !p[j]
    decreases |p| - i
  {
    if i == |p| then None else if p[i] then Some(i) else LowestFrom(p, i + 1)
  }

  /** The index `WaitAny` returns, or `None` while it would block. */
  function Lowest(p: seq<bool>): Option<nat> {
    LowestFrom(p, 0)
  }

  // ---------------------------------------------------------------------------
  // Small state updates

  function Raise(s: Server, e: nat): (r: Server)
    requires e < |s.pending|
    ensures |r.pending| == |s.pending| && r.pending[e]
  {
    s.(pending := s.pending[e := true])
  }

  function Reset(s: Server, e: nat): (r: Server)
    requires e < |s.pending|
    ensures |r.pending| == |s.pending| && !r.pending[e]
  {
    s.(pending := s.pending[e := false])
  }

  /** Sets `curState` and passes it to the state callback when one is set. */
  function Report(s: Server, st: State): Server {
    s.(curState := st, reports := if s.stateSink then s.reports + [st] else s.reports)
  }

  /** Passes a line to the log callback when one is set. */
  function Log(s: Server, line: string): Server {
    s.(log := if s.logSink then s.log + [line] else s.log)
  }

  /** The listener prefix for a port. */
  function PrefixUrl(port: int): string {
    UrlHead + DecimalString(port) + "/"
  }

  function RequestLine(count: int, req: Pipeline.Request, filename: string): string {
    "Request(" + DecimalString(count) + "): " + req.host + " << \"" + req.rawUrl + "\" (" + filename + ")\n"
  }

  // ---------------------------------------------------------------------------
  // The cases of the switch in ServerThreadProc

  /** The first half of a restart (HttpServer.cs:215-221): report Inactive, stop, resolve the accept, drop Served. */
  function StopForRestart(s: Server): (r: Server)
    requires WellFormed(s)
    ensures WellFormed(r)
  {
    Reset(Report(s, State.Inactive).(listening := false, outstanding := 0), EvServed)
  }

  /** Case 1 (HttpServer.cs:209-235): rebuild the prefix, restarting when listening. */
  function OnSettings(s: Server): (r: Server)
    requires WellFormed(s)
    ensures WellFormed(r)
  {
    var restart := s.listening;
    var stopped := if restart then StopForRestart(s) else s;
    var u := PrefixUrl(s.port);
    var rebuilt := stopped.(url := u, prefixes := [u]);
    if restart then Raise(rebuilt, EvStart) else rebuilt
  }

  /**
   * Case 2 (HttpServer.cs:237-265): start listening and issue an accept; when
   * issuing fails (`beginOk` false) the listener is replaced by a fresh one with
   * the same prefix and Start is raised again. State becomes Active in every case.
   */
  function OnStart(s: Server, beginOk: bool): (r: Server)
    requires WellFormed(s)
    ensures WellFormed(r)
  {
    var started :=
      if s.listening then s
      else
        var l := Log(s.(listening := true), "Listening for connections as " + s.url + "\n");
        if beginOk then l.(outstanding := l.outstanding + 1)
        else Raise(l.(listening := false, prefixes := [s.url]), EvStart);
    Report(started, State.Active)
  }

  /** Case 3 as written (HttpServer.cs:267-277): a pending Served survives the stop. */
  function OnStopAsWritten(s: Server): (r: Server)
    ensures r.pending == s.pending && !r.listening && r.curState == State.Inactive
    ensures r.outstanding == if s.listening then 0 else s.outstanding
  {
    Report(if s.listening then s.(listening := false, outstanding := 0) else s, State.Inactive)
  }

  /** Case 3 corrected: a stop that resolves the accept also drops a pending Served, as case 1 does. */
  function OnStop(s: Server): (r: Server)
    requires WellFormed(s)
    ensures WellFormed(r)
  {
    Report(if s.listening then Reset(s.(listening := false, outstanding := 0), EvServed) else s, State.Inactive)
  }

  /** Case 4 (HttpServer.cs:279-282): issue the next accept while listening. */
  function OnServed(s: Server): Server {
    if s.listening then s.(outstanding := s.outstanding + 1) else s
  }

  /** Index 0 ends the loop; the listener is closed, which aborts any accept (HttpServer.cs:205, 287). */
  function OnShutdown(s: Server): Server {
    s.(exited := true, listening := false, outstanding := 0)
  }

  /** One iteration of the loop as the source has it: consume the lowest pending event and run its case. */
  function StepAsWritten(s: Server, beginOk: bool): (r: Server)
    requires WellFormed(s)
    ensures WellFormed(r)
  {
    match Lowest(s.pending)
    case None => s
    case Some(e) =>
      var c := Reset(s, e);
      if e == EvShutdown then OnShutdown(c)
      else if e == EvSettings then OnSettings(c)
      else if e == EvStart then OnStart(c, beginOk)
      else if e == EvStop then OnStopAsWritten(c)
      else OnServed(c)
  }

  /** One iteration of the loop with the corrected Stop case. */
  function Step(s: Server, beginOk: bool): (r: Server)
    requires WellFormed(s)
    ensures WellFormed(r)
  {
    if Lowest(s.pending) == Some(EvStop) then OnStop(Reset(s, EvStop)) else StepAsWritten(s, beginOk)
  }

  /** The loop run for as many iterations as there are `BeginGetContext` outcomes, or until it exits. */
  function Run(s: Server, beginOks: seq<bool>): (r: Server)
    requires WellFormed(s)
    ensures WellFormed(r)
    decreases |beginOks|
  {
    if beginOks == [] || s.exited then s else Run(Step(s, beginOks[0]), beginOks[1..])
  }

  // ---------------------------------------------------------------------------
  // Commands issued from other threads, and accept completions

  /** `StartServer` (HttpServer.cs:290-299): create the thread once, raise Start every time. */
  function StartServer(s: Server): Server
    requires WellFormed(s)
  {
    Raise(s.(threadStarted := true), EvStart)
  }

  /** `StopServer` (HttpServer.cs:301-304). */
  function StopServer(s: Server): Server
    requires WellFormed(s)
  {
    Raise(s, EvStop)
  }

  /** `UpdatePort` (HttpServer.cs:306-310). */
  function UpdatePort(s: Server, value: int): Server
    requires WellFormed(s)
  {
    Raise(s.(port := value), EvSettings)
  }

  /** `UpdateRootDir` (HttpServer.cs:312-323): assign only a different value, log in both cases. */
  function UpdateRootDir(s: Server, value: string): Server {
    var changed := if value != s.rootDir then s.(rootDir := value) else s;
    Log(changed, "Serving content from file://" + value + "\n")
  }

  /** `SetLogFunc` (HttpServer.cs:75-78). */
  function SetLogFunc(s: Server, given: bool): Server {
    s.(logSink := given)
  }

  /** `SetReportStateFunc` (HttpServer.cs:80-85): a newly set callback is told the current state. */
  function SetReportStateFunc(s: Server, given: bool): Server {
    var t := s.(stateSink := given);
    if given then t.(reports := t.reports + [t.curState]) else t
  }

  /** `Dispose` (HttpServer.cs:63-73): request a stop, then the shutdown. */
  function Dispose(s: Server): Server
    requires WellFormed(s)
  {
    Raise(Raise(s, EvStop), EvShutdown)
  }

  /**
   * An outstanding accept completes and its callback serves the request
   * (HttpServer.cs:87-192): the request is counted and logged when a log callback
   * is set, and Served is raised.
   */
  function AcceptCompleted(s: Server, req: Pipeline.Request, env: Pipeline.Env): Server
    requires WellFormed(s)
    requires s.outstanding > 0
  {
    var filename := Pipeline.Resolve(s.rootDir, req.absPath, env);
    var t := s.(outstanding := s.outstanding - 1);
    var counted :=
      if s.logSink then
        t.(requestCount := s.requestCount + 1, log := t.log + [RequestLine(s.requestCount + 1, req, filename)])
      else t;
    Raise(counted, EvServed)
  }

  /** An outstanding accept whose `EndGetContext` throws: the callback returns at once (HttpServer.cs:93-100). */
  function AcceptFailed(s: Server): Server
    requires s.outstanding > 0
  {
    s.(outstanding := s.outstanding - 1)
  }
}
