/**
 * The static class `Sherpa` (Sherpa.cs:16-113) without its bootstrap: the stored
 * settings, the server it forwards to, and whether the options form exists.
 */
module App {
  import opened Lifecycle
  import opened Serving

  class Sherpa {
    /** `Properties.Settings.Default.port`, `.rootDir` and `.previousRootDirs`. */
    var port: int
    var rootDir: string
    var previousRootDirs: seq<string>
    var server: HttpServer
    /** `optionsForm != null`. */
    var formOpen: bool
    /** What `optionsForm.Log` and `optionsForm.SetServerState` were given. */
    var formLog: seq<string>
    var formStates: seq<State>

    ghost predicate Valid()
      reads this, server
    {
      server.Valid()
    }

    /** The stored settings and the server, before the options form exists. */
    constructor (srv: HttpServer, storedPort: int, storedRootDir: string, storedRootDirs: seq<string>)
      requires srv.Valid()
      ensures Valid() && server == srv && !formOpen
      ensures port == storedPort && rootDir == storedRootDir && previousRootDirs == storedRootDirs
      ensures formLog == [] && formStates == []
    {
      server := srv;
      port := storedPort;
      rootDir := storedRootDir;
      previousRootDirs := storedRootDirs;
      formOpen := false;
      formLog := [];
      formStates := [];
    }

    /** Sherpa.cs:25-31: the line reaches the form only when there is one. */
    method LogFunc(s: string)
      modifies this
      ensures formLog == if formOpen then old(formLog) + [s] else old(formLog)
      ensures formStates == old(formStates) && formOpen == old(formOpen) && server == old(server)
      ensures port == old(port) && rootDir == old(rootDir) && previousRootDirs == old(previousRootDirs)
    {
      if formOpen {
        formLog := formLog + [s];
      }
    }

    /** Sherpa.cs:33-39: the state reaches the form only when there is one. */
    method ServerStateFunc(value: State)
      modifies this
      ensures formStates == if formOpen then old(formStates) + [value] else old(formStates)
      ensures formLog == old(formLog) && formOpen == old(formOpen) && server == old(server)
      ensures port == old(port) && rootDir == old(rootDir) && previousRootDirs == old(previousRootDirs)
    {
      if formOpen {
        formStates := formStates + [value];
      }
    }

    /** Sherpa.cs:41-44. */
    method StartServer()
      requires Valid()
      modifies server, server.pending
      ensures Valid() && server.pending == old(server.pending)
      ensures server.Model() == Lifecycle.StartServer(old(server.Model()))
    {
      server.StartServer();
    }

    /** Sherpa.cs:46-49. */
    method StopServer()
      requires Valid()
      modifies server.pending
      ensures server.Model() == Lifecycle.StopServer(old(server.Model()))
    {
      server.StopServer();
    }

    /**
     * Sherpa.cs:51-58: an unchanged port is dropped, so no Settings event and no
     * restart; a changed one is stored and forwarded.
     */
    method UpdatePort(value: int)
      requires Valid()
      modifies this, server, server.pending
      ensures Valid() && server == old(server) && server.pending == old(server.pending)
      ensures port == value
      ensures rootDir == old(rootDir) && previousRootDirs == old(previousRootDirs)
      ensures formOpen == old(formOpen) && formLog == old(formLog) && formStates == old(formStates)
      ensures old(port) == value ==> server.Model() == old(server.Model())
      ensures old(port) != value ==> server.Model() == Lifecycle.UpdatePort(old(server.Model()), value)
    {
      if port != value {
        port := value;
        server.UpdatePort(port);
      }
    }

    /** Sherpa.cs:60-67: only a changed root is stored and forwarded. */
    method UpdateRootDir(value: string)
      requires Valid()
      modifies this, server
      ensures Valid() && server == old(server) && server.pending == old(server.pending)
      ensures rootDir == value
      ensures port == old(port) && previousRootDirs == old(previousRootDirs)
      ensures formOpen == old(formOpen) && formLog == old(formLog) && formStates == old(formStates)
      ensures old(rootDir) == value ==> server.Model() == old(server.Model())
      ensures old(rootDir) != value ==> server.Model() == Lifecycle.UpdateRootDir(old(server.Model()), value)
    {
      if rootDir != value {
        rootDir := value;
        server.UpdateRootDir(rootDir);
      }
    }
  }
}
