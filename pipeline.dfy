/**
 * Request resolution and response construction of `HttpServer.ListenerRequestCallback`
 * (HttpServer.cs:87-192), with the filesystem, the documents folder and the registry given
 * as an environment value read at request time.
 */
module Pipeline {
  import opened Wrappers
  import opened Text

  /** What the callback reads from the accepted request. */
  datatype Request = Request(absPath: string, rawUrl: string, host: string)

  /**
   * The world outside the process, as the callback sees it: the documents folder
   * (`Environment.GetFolderPath(MyDocuments)`), the existing directories
   * (`Directory.Exists`), the existing files with their bytes (`File.Exists`,
   * `File.ReadAllBytes`) and, per extension key of `HKEY_CLASSES_ROOT`, its
   * "Content Type" value if it has one (`OpenSubKey`, `GetValue`).
   */
  datatype Env = Env(
    documents: string,
    dirs: set<string>,
    files: map<string, seq<byte>>,
    registry: map<string, Option<string>>)
  {
    /** A path names a directory or a file, never both. */
    predicate Valid() {
      forall p :: p in dirs ==> p !in files
    }
  }

  /** The response fields the callback sets before writing the body. */
  datatype Response = Response(
    status: int,
    contentType: string,
    contentEncoding: string,
    sendChunked: bool,
    contentLength: int,
    body: seq<byte>)

  const IndexFile: string := "/index.html"
  const OctetStream: string := "application/octet-stream"
  const JavaScript: string := "text/javascript"
  const Utf8Name: string := "utf-8"

  /** The two halves of the 404 page around the probed filename. */
  const NotFoundHead: string :=
    "<html>\t<head>\t\t<title>Requested File Unavailable</title>\t</head>\t<body>\t\t<b>404: "
  const NotFoundTail: string := " not found!</b>\t</body></html>"

  /** The 404 template with the filename put in place of `{0}`. */
  function NotFoundPage(filename: string): string {
    NotFoundHead + filename + NotFoundTail
  }

  /** The directory requests are served from: the root, or the documents folder when it is blank. */
  function BaseDir(rootDir: string, documents: string): string {
    if |rootDir| == 0 then documents else rootDir
  }

  /** The local filename a request path resolves to. */
  function Resolve(rootDir: string, absPath: string, env: Env): string {
    var p := BaseDir(rootDir, env.documents) + absPath;
    if p in env.dirs && p + IndexFile in env.files then p + IndexFile else p
  }

  /**
   * `Path.GetExtension`: from the last '.' of the last path component to the end,
   * or empty when that component has no '.' or ends with it.
   */
  function Extension(path: string): string {
    ExtensionBefore(path, |path|)
  }

  /** `Extension` scanning backwards from position `i`. */
  function ExtensionBefore(path: string, i: nat): (e: string)
    requires i <= |path|
    decreases i
  {
    if i == 0 then ""
    else if path[i - 1] == '.' then (if i == |path| then "" else path[i - 1..])
    else if IsSeparator(path[i - 1]) then ""
    else ExtensionBefore(path, i - 1)
  }

  /** The content type the callback sets for `filename`. */
  function ContentTypeFor(filename: string, registry: map<string, Option<string>>): string {
    var ext := Extension(filename);
    if Lower(ext) != ".js" then
      if ext in registry then registry[ext].GetOr(OctetStream) else OctetStream
    else
      JavaScript
  }

  /** The full response for a resolved filename. */
  ghost predicate Answers(resp: Response, filename: string, env: Env) {
    && resp.status == (if filename in env.files then 200 else 404)
    && resp.body == (if filename in env.files then env.files[filename] else Utf8(NotFoundPage(filename)))
    && resp.contentType == ContentTypeFor(filename, env.registry)
    && resp.contentEncoding == Utf8Name
    && resp.sendChunked
    && resp.contentLength == |resp.body|
  }

  /**
   * The callback's work between accepting and writing: builds the filename by
   * successive appends, then sets the response fields one by one.
   */
  method HandleRequest(rootDir: string, req: Request, env: Env) returns (filename: string, resp: Response)
    ensures filename == Resolve(rootDir, req.absPath, env)
    ensures resp.status == 200 <==> filename in env.files
    ensures resp.status == 404 <==> filename !in env.files
    ensures filename in env.files ==> resp.body == env.files[filename]
    ensures filename !in env.files ==> resp.body == Utf8(NotFoundPage(filename))
    ensures resp.contentLength == |resp.body|
    ensures Lower(Extension(filename)) == ".js" ==> resp.contentType == JavaScript
    ensures Answers(resp, filename, env)
  {
    filename := rootDir;
    if |filename| == 0 {
      filename := env.documents;
    }
    filename := filename + req.absPath;
    if filename in env.dirs {
      if filename + IndexFile in env.files {
        filename := filename + IndexFile;
      }
    }

    var status: int;
    var databuf: seq<byte>;
    if filename !in env.files {
      status := 404;
      databuf := Utf8(NotFoundPage(filename));
    } else {
      status := 200;
      databuf := env.files[filename];
    }

    var ext := Extension(filename);
    var contentType: string;
    if Lower(ext) != ".js" {
      contentType := OctetStream;
      if ext in env.registry {
        contentType := env.registry[ext].GetOr(OctetStream);
      }
    } else {
      contentType := JavaScript;
    }

    resp := Response(status, contentType, Utf8Name, true, |databuf|, databuf);
  }

  // ---------------------------------------------------------------------------
  // Properties of the resolution

  /**
   * The filename is the base directory followed by the request path, with
   * "/index.html" after it exactly when that path is a directory holding index.html.
   */
  lemma ResolveShape(rootDir: string, absPath: string, env: Env)
    ensures var p := BaseDir(rootDir, env.documents) + absPath;
      && (Resolve(rootDir, absPath, env) == p || Resolve(rootDir, absPath, env) == p + IndexFile)
      && (Resolve(rootDir, absPath, env) == p + IndexFile <==> p in env.dirs && p + IndexFile in env.files)
  {
    var p := BaseDir(rootDir, env.documents) + absPath;
    assert |p + IndexFile| != |p|;
  }

  /** A blank root serves from the documents folder; any other root is used as given. */
  lemma ResolveBase(rootDir: string, absPath: string, env: Env)
    ensures |rootDir| == 0 ==> Resolve(rootDir, absPath, env)[..|env.documents|] == env.documents
    ensures |rootDir| > 0 ==> Resolve(rootDir, absPath, env)[..|rootDir|] == rootDir
  {
  }

  /** Requesting a directory that holds index.html answers the same as requesting that file. */
  lemma DirectoryServesIndex(rootDir: string, dir: string, env: Env, resp1: Response, resp2: Response)
    requires env.Valid()
    requires BaseDir(rootDir, env.documents) + dir in env.dirs
    requires BaseDir(rootDir, env.documents) + dir + IndexFile in env.files
    requires Answers(resp1, Resolve(rootDir, dir, env), env)
    requires Answers(resp2, Resolve(rootDir, dir + IndexFile, env), env)
    ensures resp1 == resp2 && resp1.status == 200
  {
    var b := BaseDir(rootDir, env.documents);
    assert b + (dir + IndexFile) == b + dir + IndexFile;
  }

  /** A missing file's 404 body holds the probed filename, encoded, right after the page head. */
  lemma NotFoundNamesPath(filename: string, env: Env, resp: Response)
    requires filename !in env.files
    requires Answers(resp, filename, env)
    ensures resp.status == 404
    ensures var k := |Utf8(NotFoundHead)|;
      k + |Utf8(filename)| <= |resp.body| && resp.body[k..k + |Utf8(filename)|] == Utf8(filename)
  {
    Utf8Append(NotFoundHead, filename);
    Utf8Append(NotFoundHead + filename, NotFoundTail);
  }

  // ---------------------------------------------------------------------------
  // Properties of the extension and the content type

  /**
   * Scanning down from `i` past a tail with no '.' and no separator yields empty or
   * a suffix of the path that starts with its only '.' and holds no separator.
   */
  lemma {:induction false} ExtensionBeforeShape(path: string, i: nat)
    requires i <= |path|
    requires forall k :: i <= k < |path| ==> path[k] != '.' && !IsSeparator(path[k])
    ensures var e := ExtensionBefore(path, i);
      e == [] || (
        && 2 <= |e| <= |path|
        && e == path[|path| - |e|..]
        && e[0] == '.'
        && forall k :: 1 <= k < |e| ==> e[k] != '.' && !IsSeparator(e[k]))
    decreases i
  {
    if i > 0 && path[i - 1] != '.' && !IsSeparator(path[i - 1]) {
      ExtensionBeforeShape(path, i - 1);
    }
  }

  /** An extension is empty, or a suffix of the path that starts with its only '.' and holds no separator. */
  lemma ExtensionShape(path: string)
    ensures var e := Extension(path);
      e == [] || (
        && 2 <= |e| <= |path|
        && e == path[|path| - |e|..]
        && e[0] == '.'
        && forall k :: 1 <= k < |e| ==> e[k] != '.' && !IsSeparator(e[k]))
  {
    ExtensionBeforeShape(path, |path|);
  }

  /** Scanning from below a '.'-free, separator-free tail finds nothing in the tail. */
  lemma {:induction false} ExtensionSkipsTail(path: string, i: nat, j: nat)
    requires i <= j <= |path|
    requires forall k :: i <= k < j ==> path[k] != '.' && !IsSeparator(path[k])
    ensures ExtensionBefore(path, j) == ExtensionBefore(path, i)
    decreases j - i
  {
    if i < j {
      ExtensionSkipsTail(path, i, j - 1);
    }
  }

  /** A name ending in "." + a plain suffix has that extension. */
  lemma ExtensionOfSuffix(stem: string, suffix: string)
    requires |suffix| > 0
    requires forall k :: 0 <= k < |suffix| ==> suffix[k] != '.' && !IsSeparator(suffix[k])
    ensures Extension(stem + "." + suffix) == "." + suffix
  {
    var path := stem + "." + suffix;
    var d := |stem|;
    assert path[d] == '.';
    assert forall k :: d + 1 <= k < |path| ==> path[k] == suffix[k - d - 1];
    ExtensionSkipsTail(path, d + 1, |path|);
    assert path[d..] == "." + suffix;
  }

  /** ".js" in any letter case is served as script without consulting the registry. */
  lemma JavaScriptType(filename: string, registry: map<string, Option<string>>)
    requires EqualIgnoringCase(Extension(filename), ".js")
    ensures ContentTypeFor(filename, registry) == JavaScript
  {
    LowerIdempotent(".js");
  }

  /**
   * Any other extension takes the registry's "Content Type", defaulting to
   * application/octet-stream when the key or the value is missing.
   */
  lemma RegistryType(filename: string, registry: map<string, Option<string>>)
    requires !EqualIgnoringCase(Extension(filename), ".js")
    ensures var ext := Extension(filename);
      && (ext in registry && registry[ext].Some? ==> ContentTypeFor(filename, registry) == registry[ext].value)
      && (ext !in registry || registry[ext].None? ==> ContentTypeFor(filename, registry) == OctetStream)
  {
    LowerIdempotent(".js");
  }
}
