/**
 * `HttpServer` (HttpServer.cs:14-328) as a class whose fields the listener loop and
 * the command methods update in place. Every method is proved against the value
 * model in `Lifecycle`: its new `Model()` is the matching function of the old one.
 */
module Serving {
  import opened Wrappers
  import opened Text
  import opened Lifecycle
  import Pipeline

  class HttpServer {
    /** evShutdown, evSettings, evStart, evStop, evServed, in `WaitAny` order. */
    var pending: array<bool>
    var listening: bool
    var outstanding: nat
    var curState: State
    var port: int
    var rootDir: string
    var url: string
    var prefixes: seq<string>
    var threadStarted: bool
    var exited: bool
    var requestCount: int
    var logSink: bool
    var stateSink: bool
    var log: seq<string>
    var reports: seq<State>

    ghost predicate Valid()
      reads this
    {
      pending.Length == EventCount
    }

    /** The server's state as a value. */
    ghost function Model(): Server
      reads this, pending
    {
      Server(pending[..], listening, outstanding, curState, port, rootDir, url, prefixes,
             threadStarted, exited, requestCount, logSink, stateSink, log, reports)
    }

    /** HttpServer.cs:42-61: port 8000, root "./", Inactive, only Settings signalled. */
    constructor ()
      ensures Valid() && fresh(pending)
      ensures Model() == Init()
      ensures port == DefaultPort && rootDir == DefaultRootDir && curState == State.Inactive
      ensures forall e :: 0 <= e < EventCount ==> (pending[e] <==> e == EvSettings)
    {
      pending := new bool[EventCount](e => e == EvSettings);
      requestCount := 0;
      port := DefaultPort;
      rootDir := DefaultRootDir;
      curState := State.Inactive;
      logSink := false;
      stateSink := false;
      threadStarted := false;
      listening := false;
      outstanding := 0;
      url := "";
      prefixes := [];
      exited := false;
      log := [];
      reports := [];
      new;
      assert pending[..] == [false, true, false, false, false];
    }

    /** Sets the state and passes it to the state callback when one is set. */
    method ReportState(st: State)
      modifies this
      ensures pending == old(pending)
      ensures curState == st
      ensures reports == old(reports) + (if stateSink then [st] else [])
      ensures Model() == Report(old(Model()), st)
    {
      curState := st;
      if stateSink {
        reports := reports + [curState];
      }
    }

    /**
     * One iteration of the loop in `ServerThreadProc` (HttpServer.cs:205-283):
     * `WaitAny` returns, and auto-resets, the lowest set event, and its case runs.
     * `beginOk` says whether `BeginGetContext` succeeds in the Start case.
     */
    method Step(beginOk: bool) returns (taken: Option<nat>)
      requires Valid() && threadStarted && !exited
      modifies this, pending
      ensures Valid() && pending == old(pending)
      ensures taken == Lowest(old(pending[..]))
      ensures Model() == Lifecycle.Step(old(Model()), beginOk)
    {
      taken := Lowest(pending[..]);
      if taken.None? {
        return;
      }
      var e := taken.value;
      pending[e] := false;
      assert Model() == Reset(old(Model()), e);
      if e == EvShutdown {
        Shutdown();
      } else if e == EvSettings {
        ApplySettings();
      } else if e == EvStart {
        Start(beginOk);
      } else if e == EvStop {
        Stop();
      } else {
        Served();
      }
    }

    /** Index 0 ends the loop; the listener is closed, aborting its accept (HttpServer.cs:205, 287). */
    method Shutdown()
      modifies this
      ensures pending == old(pending)
      ensures Model() == OnShutdown(old(Model()))
    {
      exited := true;
      listening := false;
      outstanding := 0;
    }

    /** Case 1 (HttpServer.cs:209-235). */
    method ApplySettings()
      requires Valid()
      modifies this, pending
      ensures pending == old(pending)
      ensures Model() == OnSettings(old(Model()))
    {
      var restart := listening;
      if restart {
        StopForRestart();
      }
      url := UrlHead;
      url := url + DecimalString(port);
      url := url + "/";
      prefixes := [url];
      if restart {
        pending[EvStart] := true;
      }
    }

    /** HttpServer.cs:215-221: report Inactive, stop the listener, wait for its accept, reset Served. */
    method StopForRestart()
      requires Valid()
      modifies this, pending
      ensures pending == old(pending)
      ensures Model() == Lifecycle.StopForRestart(old(Model()))
    {
      ReportState(State.Inactive);
      listening := false;
      outstanding := 0;
      pending[EvServed] := false;
    }

    /** Case 2 (HttpServer.cs:237-265). */
    method Start(beginOk: bool)
      requires Valid()
      modifies this, pending
      ensures pending == old(pending)
      ensures Model() == OnStart(old(Model()), beginOk)
    {
      if !listening {
        listening := true;
        if logSink {
          log := log + ["Listening for connections as " + url + "\n"];
        }
        if beginOk {
          outstanding := outstanding + 1;
        } else {
          // close the listener and replace it by a fresh one with the same prefix
          listening := false;
          prefixes := [url];
          pending[EvStart] := true;
        }
      }
      ReportState(State.Active);
    }

    /** Case 3 (HttpServer.cs:267-277), dropping a stale Served as case 1 does. */
    method Stop()
      requires Valid()
      modifies this, pending
      ensures pending == old(pending)
      ensures Model() == OnStop(old(Model()))
    {
      if listening {
        listening := false;
        outstanding := 0;
        pending[EvServed] := false;
      }
      ReportState(State.Inactive);
    }

    /** Case 4 (HttpServer.cs:279-282). */
    method Served()
      modifies this
      ensures pending == old(pending)
      ensures Model() == OnServed(old(Model()))
    {
      if listening {
        outstanding := outstanding + 1;
      }
    }

    /**
     * `ServerThreadProc` (HttpServer.cs:194-288) for as many iterations as there are
     * `BeginGetContext` outcomes, leaving early when Shutdown ends the loop.
     */
    method ServerThreadProc(beginOks: seq<bool>)
      requires Valid() && threadStarted && !exited
      modifies this, pending
      ensures Valid() && pending == old(pending)
      ensures Model() == Run(old(Model()), beginOks)
    {
      var i := 0;
      while i < |beginOks| && !exited
        invariant 0 <= i <= |beginOks|
        invariant Valid() && pending == old(pending) && threadStarted
        invariant Run(old(Model()), beginOks) == Run(Model(), beginOks[i..])
      {
        assert beginOks[i..][1..] == beginOks[i + 1..];
        var _ := Step(beginOks[i]);
        i := i + 1;
      }
    }

    /** HttpServer.cs:290-299: the thread is created on the first call; Start is raised on every call. */
    method StartServer()
      requires Valid()
      modifies this, pending
      ensures Valid() && pending == old(pending)
      ensures Model() == Lifecycle.StartServer(old(Model()))
    {
      if !threadStarted {
        threadStarted := true;
      }
      pending[EvStart] := true;
    }

    /** HttpServer.cs:301-304. */
    method StopServer()
      requires Valid()
      modifies pending
      ensures Model() == Lifecycle.StopServer(old(Model()))
    {
      pending[EvStop] := true;
    }

    /** HttpServer.cs:306-310. */
    method UpdatePort(value: int)
      requires Valid()
      modifies this, pending
      ensures Valid() && pending == old(pending)
      ensures Model() == Lifecycle.UpdatePort(old(Model()), value)
    {
      port := value;
      pending[EvSettings] := true;
    }

    /** HttpServer.cs:312-323. */
    method UpdateRootDir(value: string)
      modifies this
      ensures pending == old(pending)
      ensures Model() == Lifecycle.UpdateRootDir(old(Model()), value)
    {
      if value != rootDir {
        rootDir := value;
      }
      if logSink {
        log := log + ["Serving content from file://" + value + "\n"];
      }
    }

    /** HttpServer.cs:75-78. */
    method SetLogFunc(given: bool)
      modifies this
      ensures pending == old(pending)
      ensures Model() == Lifecycle.SetLogFunc(old(Model()), given)
    {
      logSink := given;
    }

    /** HttpServer.cs:80-85. */
    method SetReportStateFunc(given: bool)
      modifies this
      ensures pending == old(pending)
      ensures Model() == Lifecycle.SetReportStateFunc(old(Model()), given)
    {
      stateSink := given;
      if stateSink {
        reports := reports + [curState];
      }
    }

    /** HttpServer.cs:63-73, up to the join: a stop is requested, then the shutdown. */
    method Dispose()
      requires Valid()
      modifies pending
      ensures Model() == Lifecycle.Dispose(old(Model()))
    {
      StopServer();
      pending[EvShutdown] := true;
    }

    /**
     * An outstanding accept completes and `ListenerRequestCallback` serves it
     * (HttpServer.cs:87-192): the root is read once, the request resolved and
     * answered, counted and logged when a log callback is set, and Served raised.
     */
    method CompleteAccept(req: Pipeline.Request, env: Pipeline.Env) returns (resp: Pipeline.Response)
      requires Valid() && outstanding > 0
      modifies this, pending
      ensures Valid() && pending == old(pending)
      ensures Model() == AcceptCompleted(old(Model()), req, env)
      ensures Pipeline.Answers(resp, Pipeline.Resolve(old(rootDir), req.absPath, env), env)
    {
      outstanding := outstanding - 1;
      var filename;
      filename, resp := Pipeline.HandleRequest(rootDir, req, env);
      if logSink {
        requestCount := requestCount + 1;
        log := log + [RequestLine(requestCount, req, filename)];
      }
      pending[EvServed] := true;
    }

    /** An outstanding accept whose `EndGetContext` throws: the callback returns without raising Served (HttpServer.cs:93-100). */
    method FailAccept()
      requires outstanding > 0
      modifies this
      ensures pending == old(pending)
      ensures Model() == AcceptFailed(old(Model()))
    {
      outstanding := outstanding - 1;
    }
  }
}
