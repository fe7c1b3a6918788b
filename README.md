# Sherpa: listener lifecycle, request pipeline and configuration commands

Sherpa is a small static-file HTTP server for Windows. An options window lets the user
change the listen port and the served root directory while the server runs. This
project models three sequential parts of it in Dafny and proves properties of them:

- **The listener loop** of `HttpServer.ServerThreadProc`. Five auto-reset events
  (Shutdown, Settings, Start, Stop, Served) act as coalescing pending flags. `WaitAny`
  returns the lowest-indexed set flag and resets only that one. `Lifecycle` gives the
  server's whole state as a value (`Lifecycle.Server`) and gives every operation as a
  function on it. `Serving.HttpServer` is the class whose fields the loop and the
  commands update in place, with a `pending` array of five flags. Each of its methods is
  proved to take `Model()` to the matching `Lifecycle` function of the old state.
  `LifecycleFacts` proves the priority rule, what each case of the switch does, the
  restart-in-place on a port change, start/stop cycles, and the invariant that at most
  one accept is outstanding.
- **Request handling** in `HttpServer.ListenerRequestCallback` (module `Pipeline`).
  This covers the root-directory fallback, the path concatenation, the `index.html`
  rule, the 404 page with the filename put in, the `.js` special case, the registry
  lookup with the `application/octet-stream` default, and a `ContentLength` equal to
  the body length.
- **The configuration commands.** `App.Sherpa` holds the stored settings and forwards a
  port or root only when it changed. `Options.ServerOptionsForm` keeps the root-directory
  history in the combo box: trailing separators are stripped, and an entry is appended
  only if no existing one matches it ignoring case. The form also saves and restores
  that history.

Threads are abstracted away. Each method is one atomic step, so any interleaving of the
listener thread, the accept callbacks and the UI thread is a sequence of method calls.
The loop's two blocking waits for an outstanding accept (HttpServer.cs:220, 271) finish
in one step: the accept is resolved, and the model takes its callback to fail
`EndGetContext` on the stopped listener and not raise Served. A request accepted just
before the stop is served atomically, by an earlier `CompleteAccept`. `outstanding` counts the accepts issued
whose callback has not run yet. It is a number rather than a flag, so that two
outstanding accepts can be represented. The environment's completion of an accept is
`HttpServer.CompleteAccept` (the request is served) or `HttpServer.FailAccept`
(`EndGetContext` throws). The filesystem, the documents folder and the registry are the
value `Pipeline.Env`. Whether `BeginGetContext` succeeds in the Start case is the
parameter `beginOk`.

## Behaviour of the code

The model keeps these points of the code's behaviour as they are written:

- The code sets no `Access-Control-Allow-Origin` header. There is no double-buffered
  streaming either: the whole body goes out in one `WriteAsync` (HttpServer.cs:187).
- `Waiting` is declared (HttpServer.cs:32) but never assigned. A restart reports
  `Inactive` (HttpServer.cs:215) and then `Active`.
- When `BeginGetContext` fails in Start, the listener is recreated and Start is raised
  again every time, not just once (HttpServer.cs:251-259). The state is set to `Active`
  and reported even on that path and even when already listening.
- On Shutdown the loop closes the listener without waiting for an accept
  (HttpServer.cs:287). Dispose does request a Stop first, but Shutdown has the higher
  priority.

## Model

| member | source | states |
|---|---|---|
| `Text.DecimalRoundTrip` | HttpServer.cs:225-227 | `port.ToString()` reads back as the port for every integer, so a listener url names exactly one port |
| `Text.Utf8Append` | HttpServer.cs:151 | the UTF-8 bytes of a concatenation are the concatenation of the bytes |
| `Pipeline.HandleRequest` | HttpServer.cs:106-184 | the filename is the resolved path; status is 200 exactly when the file exists and 404 otherwise; the body is the file's bytes or the UTF-8 404 page naming the filename; `ContentLength` is the body length; a `.js` extension in any case gives `text/javascript`; encoding UTF-8, chunked |
| `Pipeline.ResolveShape` | HttpServer.cs:111-128 | the filename is base + request path, with `/index.html` appended exactly when that path is a directory holding `index.html` |
| `Pipeline.ResolveBase` | HttpServer.cs:106-118 | a blank root serves from the documents folder; any other root is the filename's prefix |
| `Pipeline.DirectoryServesIndex` | HttpServer.cs:120-158 | a directory holding `index.html` is answered exactly as a request for that file, with status 200 |
| `Pipeline.NotFoundNamesPath` | HttpServer.cs:137-152 | a missing file's 404 body holds the probed filename's bytes right after the page head |
| `Pipeline.ExtensionShape` | HttpServer.cs:162 | an extension is empty, or a suffix of the filename that starts with its only `.` and holds no separator |
| `Pipeline.ExtensionOfSuffix` | HttpServer.cs:162 | a name ending in `.` plus a plain suffix has exactly that extension |
| `Pipeline.JavaScriptType` | HttpServer.cs:163-177 | `.js` in any letter case is served as `text/javascript` without the registry |
| `Pipeline.RegistryType` | HttpServer.cs:163-173 | any other extension takes the registry's Content Type, defaulting to `application/octet-stream` when the key or value is missing |
| `Lifecycle.LowestFrom` | HttpServer.cs:196-205 | `WaitAny` picks a set flag with none set below it, and blocks only when no flag is set |
| `LifecycleFacts.FreshServer` | HttpServer.cs:42-61 | a fresh server has port 8000, root `./`, state Inactive, no listener, and only Settings pending |
| `LifecycleFacts.LowestIsMinimum` | HttpServer.cs:196-205 | any set flag bounds the one `WaitAny` returns from above |
| `LifecycleFacts.LowestIs` | HttpServer.cs:196-205 | a set flag with none set below it is the one returned |
| `LifecycleFacts.StepTakesLowest` | HttpServer.cs:205-283 | a step consumes exactly the lowest pending event; the others keep their values, except that a restart or a failed accept raises Start and a restart or a stop while listening drops Served |
| `LifecycleFacts.IdleStepBlocks` | HttpServer.cs:205 | with nothing pending the loop changes nothing |
| `LifecycleFacts.ShutdownStep` | HttpServer.cs:205-287 | a pending Shutdown ends the loop and closes the listener, whatever else is pending; the other events stay as they were |
| `LifecycleFacts.SettingsStep` | HttpServer.cs:209-235 | the url becomes exactly `http://localhost:` + port + `/` and is the only prefix; when listening, Inactive is reported, the accept is resolved, Served is dropped and Start is raised; otherwise only the url and prefix change and Settings is consumed, and every other field (log, request count, callbacks, thread flags) stays equal |
| `LifecycleFacts.StartStep` | HttpServer.cs:237-265 | when not listening, one accept is issued; a failed issue leaves a new listener with the same single prefix and Start raised again; the state becomes Active and is reported in every case |
| `LifecycleFacts.StopStep` | HttpServer.cs:267-277 | a listening server stops and its accept is resolved; either way the state becomes Inactive and is reported |
| `LifecycleFacts.ServedStep` | HttpServer.cs:279-282 | Served issues an accept only while listening and never changes or reports the state |
| `LifecycleFacts.AcceptOutcomes` | HttpServer.cs:93-191 | a served request raises Served; a failed `EndGetContext` resolves the accept without raising it |
| `LifecycleFacts.UpdatePortRaisesSettings` | HttpServer.cs:306-310 | `UpdatePort` stores the port and raises Settings, and changes nothing else |
| `LifecycleFacts.UpdateRootDirSets` | HttpServer.cs:312-323 | the root always ends up equal to the value, and the value is logged whether or not it differed |
| `LifecycleFacts.StartServerRaisesStart` | HttpServer.cs:290-299 | every `StartServer` raises Start; only the first creates the thread |
| `LifecycleFacts.InitSingleAccept` | HttpServer.cs:42-61 | a fresh server satisfies the single-accept invariant |
| `LifecycleFacts.StepKeepsSingleAccept` | HttpServer.cs:194-288 | every step of the running loop, with the corrected Stop, keeps at most one accept outstanding, none while not listening, and none while Served is pending |
| `LifecycleFacts.CommandsKeepSingleAccept` | HttpServer.cs:63-323 | every command and every accept completion keeps the invariant |
| `LifecycleFacts.RunKeepsSingleAccept` | HttpServer.cs:194-288 | any run of the loop keeps the invariant |
| `LifecycleFacts.RunStopsAtExit` | HttpServer.cs:205 | once Shutdown has ended the loop, further runs change nothing |
| `LifecycleFacts.AsWrittenDiffersOnlyInStop` | HttpServer.cs:267-277 | the loop as written and the corrected loop differ only in a Stop step, and only in the Served flag |
| `Lifecycle.OnStopAsWritten` | HttpServer.cs:267-277 | the Stop case as written: the listener stops, its accept is resolved when there was one, Inactive is set, and every pending event, a stale Served included, stays pending |
| `Lifecycle.StepAsWritten` | HttpServer.cs:205-283 | one iteration of the loop as written, with `OnStopAsWritten` as its Stop case; it keeps the record well formed (`LifecycleFacts.AsWrittenDiffersOnlyInStop` ties it to the corrected step) |
| `LifecycleFacts.StaleServedDoubleAccept` | HttpServer.cs:267-282 | as written: start, serve one request, stop, start, and the stale Served issues a second accept, leaving two outstanding |
| `LifecycleFacts.StaleServedCleared` | HttpServer.cs:267-282 | the same sequence with the corrected Stop ends with exactly one accept outstanding |
| `LifecycleFacts.RestartInPlace` | HttpServer.cs:209-265 | a port change on an active server reports Inactive then Active and ends listening on the new url with one accept outstanding |
| `LifecycleFacts.StartStopCycleIdle` | HttpServer.cs:237-277 | a start/stop cycle from an idle server ends idle and Inactive with no accept outstanding |
| `LifecycleFacts.StartStopCyclesIdle` | HttpServer.cs:237-277 | any number of start/stop cycles leave no accept outstanding and end Inactive |
| `Serving.HttpServer.ReportState` | HttpServer.cs:274-276 | the state becomes the given one and the state callback, when set, receives it; the pending events stay as they were (the same pattern is at HttpServer.cs:215-217 and 262-264) |
| `Serving.HttpServer.constructor` | HttpServer.cs:42-61 | builds the fresh state: port 8000, root `./`, Inactive, only Settings signalled |
| `Serving.HttpServer.Step` | HttpServer.cs:205-283 | one loop iteration: returns the index `WaitAny` gives and takes the state to `Lifecycle.Step` of the old one |
| `Serving.HttpServer.Shutdown` | HttpServer.cs:205-287 | the loop ends and the listener closes, aborting its accept |
| `Serving.HttpServer.ApplySettings` | HttpServer.cs:209-235 | the Settings case, in place |
| `Serving.HttpServer.StopForRestart` | HttpServer.cs:215-221 | the first half of a restart: reports Inactive, stops listening, resolves the accept and resets Served |
| `Serving.HttpServer.Start` | HttpServer.cs:237-265 | the Start case, in place |
| `Serving.HttpServer.Stop` | HttpServer.cs:267-277 | the Stop case, in place, with the stale Served dropped |
| `Serving.HttpServer.Served` | HttpServer.cs:279-282 | the Served case, in place |
| `Serving.HttpServer.ServerThreadProc` | HttpServer.cs:194-288 | runs the loop until the outcomes run out or Shutdown ends it; the state becomes `Lifecycle.Run` of the old one |
| `Serving.HttpServer.StartServer` | HttpServer.cs:290-299 | marks the thread started and raises Start |
| `Serving.HttpServer.StopServer` | HttpServer.cs:301-304 | raises Stop |
| `Serving.HttpServer.UpdatePort` | HttpServer.cs:306-310 | stores the port and raises Settings |
| `Serving.HttpServer.UpdateRootDir` | HttpServer.cs:312-323 | assigns only a different root; logs in both cases |
| `Serving.HttpServer.SetLogFunc` | HttpServer.cs:75-78 | sets or clears the log callback |
| `Serving.HttpServer.SetReportStateFunc` | HttpServer.cs:80-85 | a newly set state callback is told the current state |
| `Serving.HttpServer.Dispose` | HttpServer.cs:63-73 | raises Stop, then Shutdown |
| `Serving.HttpServer.CompleteAccept` | HttpServer.cs:87-192 | serves the request against the root read at that moment, counts and logs it when a log callback is set, and raises Served |
| `Serving.HttpServer.FailAccept` | HttpServer.cs:93-100 | resolves the accept without raising Served |
| `App.Sherpa.constructor` | Sherpa.cs:21-23 | the app holds the stored port, root and saved roots and its server; no options form exists yet and nothing has been sent to one |
| `App.Sherpa.LogFunc` | Sherpa.cs:25-31 | the line reaches the form only when there is one |
| `App.Sherpa.ServerStateFunc` | Sherpa.cs:33-39 | the state reaches the form only when there is one |
| `App.Sherpa.StartServer` | Sherpa.cs:41-44 | forwards to the server unchanged |
| `App.Sherpa.StopServer` | Sherpa.cs:46-49 | forwards to the server unchanged |
| `App.Sherpa.UpdatePort` | Sherpa.cs:51-58 | an unchanged port leaves the server untouched, so there is no Settings event and no restart; a changed one is stored and forwarded |
| `App.Sherpa.UpdateRootDir` | Sherpa.cs:60-67 | an unchanged root leaves the server untouched; a changed one is stored and forwarded |
| `Options.StripShape` | ServerOptionsForm.cs:67-69 | the stripped text is a prefix of the typed text, ends in neither separator, and only separators were removed |
| `Options.StripIdempotent` | ServerOptionsForm.cs:67-69 | stripping an already stripped text changes nothing |
| `Options.HistoryAppendsOnlyNew` | ServerOptionsForm.cs:59-90 | a text that is not an existing directory changes nothing; otherwise the stripped text is appended at the end exactly when no item equals it ignoring case, and the items are left as they were exactly when one does |
| `Options.HistoryIdempotent` | ServerOptionsForm.cs:59-90 | typing the same text again adds no further item |
| `Options.HistoryIgnoresCaseAndSeparators` | ServerOptionsForm.cs:67-86 | two spellings that differ only in letter case and trailing separators share one entry |
| `Options.StripTrailingSeparators` | ServerOptionsForm.cs:67-69 | the loop's result is the stripped text, a prefix with only separators removed and none left at the end |
| `Options.FindIgnoringCase` | ServerOptionsForm.cs:70-81 | the search finds a match exactly when some item equals the text ignoring case |
| `Options.RestoreAsWrittenLosesHistory` | ServerOptionsForm.cs:27-35 | as written, for every non-empty saved history, the combo gets nothing and the saved copy is emptied, so the result differs from the corrected restore |
| `Options.ServerOptionsForm.constructor` | ServerOptionsForm.cs:17-20 | a new form over the app has empty text, no items, and the port control at its designer value 8000 (ServerOptionsForm.Designer.cs:94-98); the change handler is attached after that value is set, so nothing is forwarded |
| `Options.ServerOptionsForm.Load` | ServerOptionsForm.cs:22-38 | shows the stored root and port, leaves the port command without effect, restores the saved roots in order (corrected), and requests a start; the stored root and port and what the form was sent stay the same |
| `Options.ServerOptionsForm.FormClosed` | ServerOptionsForm.cs:40-52 | requests a stop; the saved roots become exactly the combo items, in order; the stored root and port and what the form was sent stay the same |
| `Options.ServerOptionsForm.PortValueChanged` | ServerOptionsForm.cs:54-57 | forwards the control's value through the port guard: the port ends equal to it, the server sees a port change only when it differs, and the root, the saved roots and what the form was sent stay the same |
| `Options.ServerOptionsForm.TextUpdate` | ServerOptionsForm.cs:59-90 | the items become the history after the typed text; when the text is an existing directory the original, unstripped text is forwarded as the root, whether or not an item was appended; otherwise nothing changes; the port, the control's port value, the saved roots and what the form was sent never change |
| `Options.ServerOptionsForm.SelectionChangeCommitted` | ServerOptionsForm.cs:115-118 | a picked history entry becomes the root; the server sees a root change only when it differs from the stored one; the port, the saved roots and what the form was sent stay the same |
| `Options.CloseThenReopen` | ServerOptionsForm.cs:22-52 | with the corrected restore, closing the form and loading a new one over the same settings gives the new combo exactly the old items, in order, keeps them as the saved roots, shows the stored root and port, and the server sees a stop and then a start |

## Findings

| source | as written | input that shows it | evidently intended | confidence | as-written member | corrected member |
|---|---|---|---|---|---|---|
| HttpServer.cs:267-277 | Stop resolves the outstanding accept but leaves pending a Served raised by a request that was just served | the server starts and one request completes, raising Served; Stop is handled before Served; `StartServer` raises Start after `WaitAny` returned Stop and before the loop waits again (for example while the Inactive report at HttpServer.cs:275-276 runs), so the next wait takes Start over the stale Served and issues an accept; the stale Served then issues a second one, and two accepts are outstanding | as the Settings restart does (HttpServer.cs:221), a stop that resolves the accept also resets Served, so that, with each callback atomic, at most one accept is ever outstanding (a callback still running when the wait ends can raise Served after the reset, even with this correction) | medium; not executed | `LifecycleFacts.StaleServedDoubleAccept` | `LifecycleFacts.StepKeepsSingleAccept` |
| ServerOptionsForm.cs:27-35 | `previousRootDirs` is replaced by a new empty collection just before it is read. Each entry would be added as the enumerator's `ToString()`, not `Current` | close the form with the combo holding `C:\www`, then load it again: the combo gets nothing and the saved list is empty | create the collection only when it is missing, and add each saved root to the combo | high; not executed | `Options.RestoreAsWrittenLosesHistory` | `Options.CloseThenReopen` |

The classes use the corrected behaviour: `Serving.HttpServer.Stop` drops the stale
Served, and `Options.ServerOptionsForm.Load` restores the saved roots. The code as
written is kept as `Lifecycle.StepAsWritten` (with `Lifecycle.OnStopAsWritten`) and
`Options.RestoreAsWritten`.

## Left out

- Threads, `AutoResetEvent`, `Mutex`, `Thread.Join` and `Thread.Sleep`: every operation is atomic, and races and the root-directory mutex (HttpServer.cs:107-109, 316-318) are not modelled. `CompleteAccept` reads the root once per request, which is what the mutex protects.
- `LifecycleFacts.StepKeepsSingleAccept` and `LifecycleFacts.RunKeepsSingleAccept` hold because `CompleteAccept` is one atomic step. In the program the waits at HttpServer.cs:220 and 271 are on `AsyncWaitHandle`, which is signalled when the accept completes, not when `ListenerRequestCallback` returns. A request accepted just before a stop can still be being served and raise Served (HttpServer.cs:191) after the reset, so a second accept stays possible there, with or without the corrected Stop.
- Network I/O: `HttpListener`, `BeginGetContext`/`EndGetContext`, `WriteAsync` and `Close` (HttpServer.cs:187-188). They are flags (`listening`, `outstanding`) and a response value.
- The filesystem, the registry and the environment are the value `Pipeline.Env`, read at request time. Registry key lookup is exact, so case-insensitive key matching belongs to that value. A Content Type value is taken as a string.
- Request URL parsing: the request's absolute path, its url text and its host are inputs.
- `listener.Start()` failing (HttpServer.cs:241) and `BeginGetContext` failing in the Served case (HttpServer.cs:281) are uncaught in the source. Both are taken to succeed.
- `Serving.HttpServer.Dispose` does not model the `Join` that waits for the loop to exit, or the reset of `serverThread`. A server thread started again after `Dispose` is not modelled.
- `Serving.HttpServer.ServerThreadProc` runs the loop over a finite sequence of `BeginGetContext` outcomes. The real loop runs until Shutdown, interleaved with the other threads. The listener it creates at line 199 is the constructor's initial listener state.
- `Text.Lower` lower-cases ASCII letters only. The source's `ToLower` is culture-sensitive.
- Integers are unbounded. The 32-bit `requestCount` and `port` do not wrap.
- UTF-8 covers Unicode scalar values only. Dafny characters cannot be lone surrogates.
- Logging of the request is modelled with its counter. The log and state callbacks are flags on the server. What `Sherpa.LogFunc` and `Sherpa.ServerStateFunc` pass to the form is recorded as sequences. `ServerOptionsForm.Log` and `SetServerState` themselves are not part of this model.
- `Options.ServerOptionsForm.Load` requires the stored port to lie in 1..65535, the range of the port control (ServerOptionsForm.Designer.cs:82-91). Outside it, the assignment at ServerOptionsForm.cs:25 throws `ArgumentOutOfRangeException`, and that exception path is not modelled.
- `Options.ServerOptionsForm.Load` always forwards the stored port, as if the control's value had changed. WinForms raises the change event only when the value differs, but either way the guard drops it.
- `BaseRequestUrl` (HttpServer.cs:324-327) is a plain getter of `url`, and it is not modelled.
- The UI and process startup: `ServerOptionsForm.Designer.cs`, saving the settings to disk, the folder dialog, the tray icon, `button1_Click`, `MessageBox`, `Sherpa.Main` and its single-instance mutex.
