/** What the listener loop and the server's commands guarantee, stated over `Lifecycle`. */
module LifecycleFacts {
  import opened Wrappers
  import opened Text
  import opened Lifecycle
  import Pipeline

  // ---------------------------------------------------------------------------
  // The priority rule

  /** The fresh server: port 8000, root "./", Inactive, nothing listening, only Settings signalled. */
  lemma FreshServer()
    ensures var s := Init();
      && WellFormed(s) && s.port == 8000 && s.rootDir == "./" && s.curState == State.Inactive
      && !s.listening && s.outstanding == 0 && !s.threadStarted
      && Lowest(s.pending) == Some(EvSettings)
      && forall e :: 0 <= e < EventCount ==> (s.pending[e] <==> e == EvSettings)
  {
  }

  /** `WaitAny` returns the lowest set index, or blocks only when nothing is set. */
  lemma LowestIsMinimum(p: seq<bool>, e: nat)
    requires e < |p| && p[e]
    ensures Lowest(p).Some? && Lowest(p).value <= e && p[Lowest(p).value]
    ensures forall j :: 0 <= j < Lowest(p).value ==> !p[j]
  {
  }

  /** The index of a set event with none set below it is the one `WaitAny` returns. */
  lemma LowestIs(p: seq<bool>, e: nat)
    requires e < |p| && p[e] && forall j :: 0 <= j < e ==> !p[j]
    ensures Lowest(p) == Some(e)
  {
  }

  /**
   * A step consumes exactly the lowest pending event and leaves every other event
   * as it was, except that a restart (Settings while listening) and a failed
   * accept re-raise Start, and a restart or a stop while listening drop Served.
   */
  lemma StepTakesLowest(s: Server, beginOk: bool, e: nat)
    requires WellFormed(s) && Lowest(s.pending) == Some(e)
    ensures forall j :: 0 <= j < e ==> !s.pending[j]
    ensures Step(s, beginOk).pending ==
      if e == EvSettings && s.listening then s.pending[EvSettings := false][EvServed := false][EvStart := true]
      else if e == EvStart && !s.listening && !beginOk then s.pending
      else if e == EvStop && s.listening then s.pending[EvStop := false][EvServed := false]
      else s.pending[e := false]
  {
    var c := Reset(s, e);
    if e == EvShutdown {
      assert Step(s, beginOk) == OnShutdown(c);
    } else if e == EvSettings {
      assert Step(s, beginOk) == OnSettings(c);
    } else if e == EvStart {
      assert Step(s, beginOk) == OnStart(c, beginOk);
      assert s.pending[EvStart];
      if !s.listening && !beginOk {
        assert c.pending[EvStart := true] == s.pending;
      }
    } else if e == EvStop {
      assert Step(s, beginOk) == OnStop(c);
    } else {
      assert Step(s, beginOk) == OnServed(c);
    }
  }

  /** With nothing pending the loop stays blocked in `WaitAny`. */
  lemma IdleStepBlocks(s: Server, beginOk: bool)
    requires WellFormed(s) && forall e :: 0 <= e < EventCount ==> !s.pending[e]
    ensures Step(s, beginOk) == s
  {
  }

  /** Shutdown ends the loop and closes the listener, whatever else is pending. */
  lemma ShutdownStep(s: Server, beginOk: bool)
    requires WellFormed(s) && s.pending[EvShutdown]
    ensures var r := Step(s, beginOk);
      && r.exited && !r.listening && r.outstanding == 0 && !r.pending[EvShutdown]
      && r.curState == s.curState && r.reports == s.reports
      && forall j :: 0 < j < EventCount ==> r.pending[j] == s.pending[j]
  {
  }

  // ---------------------------------------------------------------------------
  // The cases

  /**
   * Settings makes the url exactly "http://localhost:" + port + "/", the sole
   * prefix, with the port reading back from it. When listening it first reports
   * Inactive, stops, resolves the accept, drops a pending Served, and raises Start.
   */
  lemma SettingsStep(s: Server, beginOk: bool)
    requires WellFormed(s) && !s.pending[EvShutdown] && s.pending[EvSettings]
    ensures var r := Step(s, beginOk);
      && r.url == UrlHead + DecimalString(s.port) + "/" && r.prefixes == [r.url]
      && ParseDecimal(r.url[|UrlHead|..|r.url| - 1]) == Some(s.port)
      && !r.listening && r.port == s.port && r.rootDir == s.rootDir && r.exited == s.exited
      && (s.listening ==>
            && r.outstanding == 0 && r.curState == State.Inactive
            && r.reports == s.reports + (if s.stateSink then [State.Inactive] else [])
            && r.pending[EvStart] && !r.pending[EvServed])
      && (!s.listening ==>
            && r.outstanding == s.outstanding && r.curState == s.curState && r.reports == s.reports
            && r.pending == s.pending[EvSettings := false])
      && (!s.listening ==> r == s.(pending := s.pending[EvSettings := false], url := r.url, prefixes := r.prefixes))
  {
    var r := Step(s, beginOk);
    assert r.url[|UrlHead|..|r.url| - 1] == DecimalString(s.port);
    DecimalRoundTrip(s.port);
  }

  /**
   * Start issues one accept when not listening and it can; a failed issue leaves a
   * fresh listener with the same single prefix and Start raised again. In every
   * case the state becomes Active and is reported, even when already listening.
   */
  lemma StartStep(s: Server, beginOk: bool)
    requires WellFormed(s) && !s.pending[EvShutdown] && !s.pending[EvSettings] && s.pending[EvStart]
    ensures var r := Step(s, beginOk);
      && r.curState == State.Active
      && r.reports == s.reports + (if s.stateSink then [State.Active] else [])
      && (s.listening ==> r.listening && r.outstanding == s.outstanding && !r.pending[EvStart])
      && (!s.listening && beginOk ==> r.listening && r.outstanding == s.outstanding + 1 && !r.pending[EvStart])
      && (!s.listening && !beginOk ==>
            !r.listening && r.outstanding == s.outstanding && r.pending[EvStart] && r.prefixes == [s.url])
  {
  }

  /** Stop stops a listening server and resolves its accept; either way the state becomes Inactive and is reported. */
  lemma StopStep(s: Server, beginOk: bool)
    requires WellFormed(s) && !s.pending[EvShutdown] && !s.pending[EvSettings] && !s.pending[EvStart]
    requires s.pending[EvStop]
    ensures var r := Step(s, beginOk);
      && !r.listening && r.curState == State.Inactive
      && r.reports == s.reports + (if s.stateSink then [State.Inactive] else [])
      && r.outstanding == (if s.listening then 0 else s.outstanding)
      && (s.listening ==> !r.pending[EvServed])
  {
  }

  /** Served issues the next accept only while listening, and never changes or reports the state. */
  lemma ServedStep(s: Server, beginOk: bool)
    requires WellFormed(s) && Lowest(s.pending) == Some(EvServed)
    ensures var r := Step(s, beginOk);
      && r.curState == s.curState && r.reports == s.reports && r.listening == s.listening
      && r.outstanding == s.outstanding + (if s.listening then 1 else 0)
      && !r.pending[EvServed]
  {
  }

  /** A completed request raises Served; a failed `EndGetContext` does not; neither touches the state. */
  lemma AcceptOutcomes(s: Server, req: Pipeline.Request, env: Pipeline.Env)
    requires WellFormed(s) && s.outstanding > 0
    ensures var r := AcceptCompleted(s, req, env);
      && r.pending == s.pending[EvServed := true] && r.outstanding == s.outstanding - 1
      && r.curState == s.curState && r.listening == s.listening
    ensures var r := AcceptFailed(s);
      && r.pending == s.pending && r.outstanding == s.outstanding - 1
      && r.curState == s.curState && r.listening == s.listening
  {
  }

  // ---------------------------------------------------------------------------
  // Commands

  /** `UpdatePort` stores the port and raises Settings, and nothing else. */
  lemma UpdatePortRaisesSettings(s: Server, value: int)
    requires WellFormed(s)
    ensures var r := UpdatePort(s, value);
      r.port == value && r.pending == s.pending[EvSettings := true] && r == s.(port := value, pending := r.pending)
  {
  }

  /** `UpdateRootDir` always ends with the given root and logs it, whether or not it differed. */
  lemma UpdateRootDirSets(s: Server, value: string)
    ensures var r := UpdateRootDir(s, value);
      && r.rootDir == value
      && r.log == s.log + (if s.logSink then ["Serving content from file://" + value + "\n"] else [])
      && r.pending == s.pending && r.port == s.port
  {
  }

  /** `StartServer` raises Start on every call, and marks the thread started; a second call changes nothing more. */
  lemma StartServerRaisesStart(s: Server)
    requires WellFormed(s)
    ensures var r := StartServer(s);
      r.threadStarted && r.pending[EvStart] && StartServer(r) == r
  {
  }

  // ---------------------------------------------------------------------------
  // At most one accept outstanding

  /**
   * The loop's accept invariant: at most one accept outstanding, none while not
   * listening, and a pending Served (while the loop runs) only between an accept
   * completing and the next one being issued.
   */
  predicate SingleAccept(s: Server) {
    && WellFormed(s)
    && s.outstanding <= 1
    && (!s.listening ==> s.outstanding == 0)
    && (s.pending[EvServed] && !s.exited ==> s.listening && s.outstanding == 0)
    && (s.exited ==> !s.listening)
  }

  lemma InitSingleAccept()
    ensures SingleAccept(Init())
  {
  }

  /** Every iteration of the corrected loop keeps the invariant. */
  lemma StepKeepsSingleAccept(s: Server, beginOk: bool)
    requires SingleAccept(s) && !s.exited
    ensures SingleAccept(Step(s, beginOk))
  {
    match Lowest(s.pending)
    case None =>
    case Some(e) =>
      var c := Reset(s, e);
      assert SingleAccept(c.(pending := s.pending)) && |c.pending| == EventCount;
      if e == EvShutdown {
        assert Step(s, beginOk) == OnShutdown(c);
      } else if e == EvSettings {
        assert Step(s, beginOk) == OnSettings(c);
      } else if e == EvStart {
        assert Step(s, beginOk) == OnStart(c, beginOk);
        assert !c.listening ==> !c.pending[EvServed];
      } else if e == EvStop {
        assert Step(s, beginOk) == OnStop(c);
      } else {
        assert s.pending[EvServed] && s.outstanding == 0;
        assert Step(s, beginOk) == OnServed(c);
      }
  }

  /** So does every command and every accept completion. */
  lemma CommandsKeepSingleAccept(s: Server, req: Pipeline.Request, env: Pipeline.Env, port: int, root: string, given: bool)
    requires SingleAccept(s)
    ensures SingleAccept(StartServer(s)) && SingleAccept(StopServer(s)) && SingleAccept(UpdatePort(s, port))
    ensures SingleAccept(UpdateRootDir(s, root)) && SingleAccept(Dispose(s))
    ensures SingleAccept(SetLogFunc(s, given)) && SingleAccept(SetReportStateFunc(s, given))
    ensures s.outstanding > 0 ==> SingleAccept(AcceptCompleted(s, req, env)) && SingleAccept(AcceptFailed(s))
  {
  }

  /** Any run of the corrected loop keeps the invariant. */
  lemma {:induction false} RunKeepsSingleAccept(s: Server, beginOks: seq<bool>)
    requires SingleAccept(s)
    ensures SingleAccept(Run(s, beginOks))
    decreases |beginOks|
  {
    if beginOks != [] && !s.exited {
      StepKeepsSingleAccept(s, beginOks[0]);
      RunKeepsSingleAccept(Step(s, beginOks[0]), beginOks[1..]);
    }
  }

  /** A run stops at the first Shutdown; after it nothing changes. */
  lemma {:induction false} RunStopsAtExit(s: Server, beginOks: seq<bool>)
    requires WellFormed(s) && s.exited
    ensures Run(s, beginOks) == s
  {
  }

  // ---------------------------------------------------------------------------
  // Stop leaves a stale Served pending

  /** The source's loop and the corrected one differ only when Stop is the lowest pending event. */
  lemma AsWrittenDiffersOnlyInStop(s: Server, beginOk: bool)
    requires WellFormed(s)
    ensures Lowest(s.pending) != Some(EvStop) ==> StepAsWritten(s, beginOk) == Step(s, beginOk)
    ensures Lowest(s.pending) == Some(EvStop) ==>
      && StepAsWritten(s, beginOk).pending == s.pending[EvStop := false]
      && StepAsWritten(s, beginOk) == Step(s, beginOk).(pending := s.pending[EvStop := false])
  {
  }

  /**
   * As written, a request served just before a Stop leaves Served pending; after
   * the next Start issues its accept, that stale Served issues a second one.
   */
  lemma StaleServedDoubleAccept(req: Pipeline.Request, env: Pipeline.Env)
    ensures var s3 := StepAsWritten(StepAsWritten(StartServer(Init()), true), true);
      && s3.outstanding == 1
      && var s6 := StepAsWritten(StopServer(AcceptCompleted(s3, req, env)), true);
      && var s9 := StepAsWritten(StepAsWritten(StartServer(s6), true), true);
      && s9.listening && s9.outstanding == 2
  {
    var s1 := StartServer(Init());
    assert s1.pending == [false, true, true, false, false];
    LowestIs(s1.pending, EvSettings);
    var s2 := StepAsWritten(s1, true);
    assert s2.pending == [false, false, true, false, false] && !s2.listening && s2.outstanding == 0;
    LowestIs(s2.pending, EvStart);
    var s3 := StepAsWritten(s2, true);
    assert s3.pending == [false, false, false, false, false] && s3.listening && s3.outstanding == 1;
    var s5 := StopServer(AcceptCompleted(s3, req, env));
    assert s5.pending == [false, false, false, true, true] && s5.outstanding == 0;
    LowestIs(s5.pending, EvStop);
    var s6 := StepAsWritten(s5, true);
    assert s6.pending == [false, false, false, false, true] && !s6.listening && s6.outstanding == 0;
    var s7 := StartServer(s6);
    assert s7.pending == [false, false, true, false, true];
    LowestIs(s7.pending, EvStart);
    var s8 := StepAsWritten(s7, true);
    assert s8.pending == [false, false, false, false, true] && s8.listening && s8.outstanding == 1;
    LowestIs(s8.pending, EvServed);
  }

  /** The same sequence with the corrected Stop keeps a single accept. */
  lemma StaleServedCleared(req: Pipeline.Request, env: Pipeline.Env)
    ensures var s3 := Step(Step(StartServer(Init()), true), true);
      && s3.outstanding == 1
      && var s6 := Step(StopServer(AcceptCompleted(s3, req, env)), true);
      && var s9 := Step(Step(StartServer(s6), true), true);
      && s9.listening && s9.outstanding == 1
  {
    var s1 := StartServer(Init());
    assert s1.pending == [false, true, true, false, false];
    LowestIs(s1.pending, EvSettings);
    var s2 := Step(s1, true);
    assert s2.pending == [false, false, true, false, false] && !s2.listening && s2.outstanding == 0;
    LowestIs(s2.pending, EvStart);
    var s3 := Step(s2, true);
    assert s3.pending == [false, false, false, false, false] && s3.listening && s3.outstanding == 1;
    var s5 := StopServer(AcceptCompleted(s3, req, env));
    assert s5.pending == [false, false, false, true, true] && s5.outstanding == 0;
    LowestIs(s5.pending, EvStop);
    var s6 := Step(s5, true);
    assert s6.pending == [false, false, false, false, false] && !s6.listening && s6.outstanding == 0;
    var s7 := StartServer(s6);
    assert s7.pending == [false, false, true, false, false];
    LowestIs(s7.pending, EvStart);
    var s8 := Step(s7, true);
    assert s8.pending == [false, false, false, false, false] && s8.listening && s8.outstanding == 1;
  }

  // ---------------------------------------------------------------------------
  // Restart in place and start/stop cycles

  /**
   * A port change on an active server: the Settings step and the Start it raises
   * report Inactive then Active, and leave the server listening on the new url
   * with exactly one accept outstanding.
   */
  lemma RestartInPlace(s: Server, port: int)
    requires SingleAccept(s) && !s.exited && s.listening && s.stateSink
    requires !s.pending[EvShutdown] && !s.pending[EvStop]
    ensures var r := Step(Step(UpdatePort(s, port), true), true);
      && r.listening && r.outstanding == 1 && r.curState == State.Active
      && r.url == PrefixUrl(port) && r.prefixes == [r.url]
      && r.reports == s.reports + [State.Inactive, State.Active]
      && !r.pending[EvStart] && !r.pending[EvServed] && !r.pending[EvSettings]
  {
    var u := UpdatePort(s, port);
    SettingsStep(u, true);
    var m := Step(u, true);
    StartStep(m, true);
  }

  /** One press of Start followed by one of Stop, each handled by the loop. */
  function StartStopCycle(s: Server): Server
    requires WellFormed(s)
  {
    Step(StopServer(Step(StartServer(s), true)), true)
  }

  function StartStopCycles(s: Server, n: nat): (r: Server)
    requires WellFormed(s)
    ensures WellFormed(r)
    decreases n
  {
    if n == 0 then s else StartStopCycles(StartStopCycle(s), n - 1)
  }

  predicate Idle(s: Server) {
    && SingleAccept(s) && !s.exited && !s.listening
    && forall e :: 0 <= e < EventCount ==> !s.pending[e]
  }

  /** A start/stop cycle from an idle server ends idle and Inactive, with no accept left behind. */
  lemma StartStopCycleIdle(s: Server)
    requires Idle(s)
    ensures var r := StartStopCycle(s);
      Idle(r) && r.outstanding == 0 && r.curState == State.Inactive
  {
    var a := StartServer(s);
    StartStep(a, true);
    var b := Step(a, true);
    assert b.listening && b.outstanding == 1;
    var c := StopServer(b);
    StopStep(c, true);
  }

  /** Any number of start/stop cycles leave no accept outstanding and end Inactive. */
  lemma {:induction false} StartStopCyclesIdle(s: Server, n: nat)
    requires Idle(s) && (n == 0 ==> s.curState == State.Inactive)
    ensures var r := StartStopCycles(s, n);
      Idle(r) && r.outstanding == 0 && r.curState == State.Inactive
    decreases n
  {
    if n > 0 {
      StartStopCycleIdle(s);
      StartStopCyclesIdle(StartStopCycle(s), n - 1);
    }
  }
}
