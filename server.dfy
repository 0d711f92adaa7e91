/** The HTTP request handlers of the server and the socket handshake, as
    pure decisions: a handler maps a request either to the response it sends
    straight away or to the file-system or process action it starts, and the
    completion functions map that action's outcome to the response. */
module Server {
  import opened Wrappers
  import opened Strings
  import opened PosixPath
  import opened Workspace
  import JsonString

  /** What the server fixes at start: `AUTH_TOKEN` and `WORKSPACE_ROOT`. */
  datatype Config = Config(token: string, root: string)

  /** `process.env.AUTH_TOKEN || 'changeme'`: JavaScript's `||` skips an unset
      or empty variable, so the configured token is never empty. */
  function ConfiguredToken(env: Option<string>): (t: string)
    ensures t != ""
    ensures env.Some? && env.value != "" ==> t == env.value
    ensures !(env.Some? && env.value != "") ==> t == "changeme"
  {
    if env.Some? && env.value != "" then env.value else "changeme"
  }

  function ServerConfig(envToken: Option<string>, dirname: string): Config {
    Config(ConfiguredToken(envToken), WorkspaceRoot(dirname))
  }

  predicate ValidConfig(cfg: Config) {
    cfg.token != "" && IsNormalRoot(cfg.root)
  }

  /** The routes of the API. */
  datatype Route = ListFiles | UploadFile | DownloadFile | DeleteFile | MakeDir | Execute

  /** The file multer stored for an upload: its temporary path and the name
      the client gave it. */
  datatype Upload = Upload(tmpPath: string, originalName: string)

  /** What the handlers read from a request (string values only). */
  datatype Request = Request(
    route: Route,
    headerToken: Option<string>,    // header `x-auth-token`
    queryToken: Option<string>,     // query `token`
    queryPath: Option<string>,      // query `path`
    language: Option<string>,       // body `language`
    code: Option<string>,           // body `code`
    file: Option<Upload>)           // `req.file`

  /** JavaScript truthiness of a possibly missing string. */
  predicate Truthy(v: Option<string>) {
    v.Some? && v.value != ""
  }

  /** `v || ''`. */
  function OrEmpty(v: Option<string>): string {
    if Truthy(v) then v.value else ""
  }

  /** `req.headers['x-auth-token'] || req.query.token`. */
  function PresentedToken(req: Request): (t: Option<string>)
    ensures t == req.headerToken || t == req.queryToken
    ensures Truthy(req.headerToken) ==> t == req.headerToken
    ensures t == Some("") ==> req.queryToken == Some("")
  {
    if Truthy(req.headerToken) then req.headerToken else req.queryToken
  }

  /** `checkAuth` lets a request through exactly when the strict comparison
      `token !== AUTH_TOKEN` fails. */
  predicate Authorized(cfg: Config, req: Request): (ok: bool)
    ensures ok ==> req.headerToken == Some(cfg.token) || req.queryToken == Some(cfg.token)
    ensures cfg.token != "" && req.headerToken == Some(cfg.token) ==> ok
  {
    PresentedToken(req) == Some(cfg.token)
  }

  datatype HandshakeResult = Accepted | Rejected(message: string)

  /** The socket.io middleware on `socket.handshake.auth.token`. */
  function Handshake(cfg: Config, authToken: Option<string>): (r: HandshakeResult)
    ensures r.Accepted? <==> authToken == Some(cfg.token)
    ensures r.Rejected? ==> r.message == "Unauthorized"
  {
    if authToken == Some(cfg.token) then Accepted else Rejected("Unauthorized")
  }

  /** The effects a handler starts. */
  datatype Action =
    | ReadDir(dir: string)
    | Rename(source: string, dest: string)
    | Rm(target: string, recursive: bool, force: bool)
    | Mkdir(target: string, recursive: bool)
    | Download(target: string)
    | Exec(command: string, cwd: string, timeoutMs: nat)

  /** One element of the JSON listing `{name, isDir}`. */
  datatype Entry = Entry(name: string, isDir: bool)

  datatype Body =
    | ErrorBody(error: string)                 // `{error}`
    | SuccessBody                              // `{success: true}`
    | ListingBody(entries: seq<Entry>)
    | OutputBody(stdout: string, stderr: string)
    | CrashPage                                // Express's page for an exception thrown in a handler

  datatype Response = Response(status: nat, body: Body)

  datatype Outcome = Respond(response: Response) | Perform(action: Action)

  function Fail(status: nat, message: string): Outcome {
    Respond(Response(status, ErrorBody(message)))
  }

  const ExecTimeoutMs: nat := 10000

  const SupportedLanguages: set<string> := {"node", "python", "bash"}

  /** The interpreter switch of the execute route: node and python get the
      code as a JSON string literal after `-e` / `-c`, bash runs it as the
      command itself, any other language has no command. */
  function Command(language: string, code: string): (cmd: Option<string>)
    ensures cmd.Some? <==> language in SupportedLanguages
    ensures language == "bash" ==> cmd == Some(code)
  {
    if language == "node" then Some("node -e " + JsonString.Quote(code))
    else if language == "python" then Some("python -c " + JsonString.Quote(code))
    else if language == "bash" then Some(code)
    else None
  }

  /** The list route; a missing or empty `path` means the root. A thrown
      `Invalid path` becomes a 400 in every route. */
  function HandleList(cfg: Config, req: Request): (r: Outcome)
    ensures r.Respond? ==> r.response.status == 400
  {
    match ResolvePath(cfg.root, OrEmpty(req.queryPath))
    case Failure(e) => Fail(400, ErrorMessage(e))
    case Success(target) => Perform(ReadDir(target))
  }

  /** Upload: the path is resolved before `req.file` is read, and reading
      `req.file.path` without a file throws. */
  function HandleUpload(cfg: Config, req: Request): (r: Outcome)
    ensures r.Respond? ==> r.response.status in {400, 500}
  {
    match ResolvePath(cfg.root, OrEmpty(req.queryPath))
    case Failure(e) => Fail(400, ErrorMessage(e))
    case Success(targetDir) =>
      if req.file.None? then Respond(Response(500, CrashPage))
      else Perform(Rename(req.file.value.tmpPath, Join2(targetDir, req.file.value.originalName)))
  }

  function HandleDownload(cfg: Config, req: Request): (r: Outcome)
    ensures r.Respond? ==> r.response.status == 400
  {
    if !Truthy(req.queryPath) then Fail(400, "path required")
    else
      match ResolvePath(cfg.root, req.queryPath.value)
      case Failure(e) => Fail(400, ErrorMessage(e))
      case Success(target) => Perform(Download(target))
  }

  function HandleDelete(cfg: Config, req: Request): (r: Outcome)
    ensures r.Respond? ==> r.response.status == 400
  {
    if !Truthy(req.queryPath) then Fail(400, "path required")
    else
      match ResolvePath(cfg.root, req.queryPath.value)
      case Failure(e) => Fail(400, ErrorMessage(e))
      case Success(target) => Perform(Rm(target, true, true))
  }

  function HandleMkdir(cfg: Config, req: Request): (r: Outcome)
    ensures r.Respond? ==> r.response.status == 400
  {
    if !Truthy(req.queryPath) then Fail(400, "path required")
    else
      match ResolvePath(cfg.root, req.queryPath.value)
      case Failure(e) => Fail(400, ErrorMessage(e))
      case Success(target) => Perform(Mkdir(target, true))
  }

  function HandleExecute(cfg: Config, req: Request): (r: Outcome)
    ensures r.Respond? ==> r.response.status == 400
  {
    if !Truthy(req.language) || !Truthy(req.code) then Fail(400, "language and code required")
    else
      match Command(req.language.value, req.code.value)
      case None => Fail(400, "Unsupported language")
      case Some(cmd) => Perform(Exec(cmd, cfg.root, ExecTimeoutMs))
  }

  /** A request through `checkAuth` and then its route's handler. */
  function Handle(cfg: Config, req: Request): (r: Outcome)
    ensures !Authorized(cfg, req) ==> r == Fail(401, "Unauthorized")
    ensures Authorized(cfg, req) && r.Respond? ==> r.response.status in {400, 500}
  {
    if !Authorized(cfg, req) then Fail(401, "Unauthorized")
    else
      match req.route
      case ListFiles => HandleList(cfg, req)
      case UploadFile => HandleUpload(cfg, req)
      case DownloadFile => HandleDownload(cfg, req)
      case DeleteFile => HandleDelete(cfg, req)
      case MakeDir => HandleMkdir(cfg, req)
      case Execute => HandleExecute(cfg, req)
  }

  /** What `fs.readdir` reports about an entry. */
  datatype FileKind = RegularFile | Directory | SymbolicLink | OtherKind
  datatype Dirent = Dirent(name: string, kind: FileKind)

  /** `entries.map(e => ({ name: e.name, isDir: e.isDirectory() }))`. */
  function ToListing(entries: seq<Dirent>): (r: seq<Entry>)
    ensures |r| == |entries|
    ensures forall i :: 0 <= i < |entries| ==>
              r[i].name == entries[i].name && (r[i].isDir <==> entries[i].kind == Directory)
    decreases |entries|
  {
    if entries == [] then []
    else [Entry(entries[0].name, entries[0].kind == Directory)] + ToListing(entries[1..])
  }

  /** The `fs.readdir` callback of the list route. */
  function ReadDirCompleted(result: Result<seq<Dirent>, string>): (r: Response)
    ensures r.status == 200 <==> result.Success?
    ensures result.Failure? ==> r == Response(500, ErrorBody(result.error))
    ensures result.Success? ==> r.body.ListingBody? && |r.body.entries| == |result.value|
  {
    match result
    case Failure(message) => Response(500, ErrorBody(message))
    case Success(entries) => Response(200, ListingBody(ToListing(entries)))
  }

  /** The callback of `fs.rename`, `fs.rm` and `fs.mkdir`. */
  function FsCompleted(error: Option<string>): (r: Response)
    ensures r.status == 200 <==> error.None?
    ensures error.None? ==> r.body == SuccessBody
    ensures error.Some? ==> r == Response(500, ErrorBody(error.value))
  {
    if error.Some? then Response(500, ErrorBody(error.value)) else Response(200, SuccessBody)
  }

  /** The `exec` callback: `error` is the message of the error, if any. */
  function ExecCompleted(error: Option<string>, stdout: string, stderr: string): (r: Response)
    ensures r.status == 200 && r.body.OutputBody? && r.body.stdout == stdout
    ensures error.None? ==> r.body.stderr == stderr
  {
    if error.Some? then Response(200, OutputBody(stdout, error.value + "\n" + stderr))
    else Response(200, OutputBody(stdout, stderr))
  }

  // ----- Properties -----

  /** The server's own configuration is valid whenever its directory is an
      absolute path. */
  lemma ServerConfigValid(envToken: Option<string>, dirname: string)
    requires dirname != "" && dirname[0] == '/'
    ensures ValidConfig(ServerConfig(envToken, dirname))
  {
  }

  /** The 401 is sent exactly to the requests `checkAuth` rejects, and a
      rejected request starts no action. */
  lemma UnauthorizedIff(cfg: Config, req: Request)
    ensures Handle(cfg, req) == Fail(401, "Unauthorized") <==> !Authorized(cfg, req)
    ensures !Authorized(cfg, req) ==> Handle(cfg, req).Respond?
  {
  }

  /** A truthy header token wins over the query token; an empty or missing
      header falls back to the query. */
  lemma HeaderPrecedence(cfg: Config, req: Request)
    ensures Truthy(req.headerToken) ==> (Authorized(cfg, req) <==> req.headerToken.value == cfg.token)
    ensures !Truthy(req.headerToken) ==> (Authorized(cfg, req) <==> req.queryToken == Some(cfg.token))
  {
  }

  /** With the configured token never empty, an empty token never
      authorizes, neither over HTTP nor over the socket. */
  lemma EmptyTokenRejected(cfg: Config, req: Request)
    requires ValidConfig(cfg)
    requires PresentedToken(req) in {None, Some("")}
    ensures !Authorized(cfg, req)
    ensures Handshake(cfg, Some("")) == Rejected("Unauthorized")
  {
  }

  /** The socket handshake applies the same strict comparison as `checkAuth`. */
  lemma HandshakeAgrees(cfg: Config, req: Request)
    ensures Handshake(cfg, PresentedToken(req)) == Accepted <==> Authorized(cfg, req)
    ensures forall t: Option<string> :: Handshake(cfg, t).Accepted? <==> t == Some(cfg.token)
  {
  }

  predicate NeedsPath(route: Route) {
    route == DownloadFile || route == DeleteFile || route == MakeDir
  }

  /** Download, delete and mkdir answer `path required` exactly when the
      `path` query is missing or empty. */
  lemma PathRequiredIff(cfg: Config, req: Request)
    requires Authorized(cfg, req) && NeedsPath(req.route)
    ensures Handle(cfg, req) == Fail(400, "path required") <==> !Truthy(req.queryPath)
  {
  }

  /** List and upload treat a missing or empty `path` as the root. */
  lemma DefaultsToRoot(cfg: Config, req: Request)
    requires ValidConfig(cfg) && Authorized(cfg, req) && !Truthy(req.queryPath)
    ensures req.route == ListFiles ==> Handle(cfg, req) == Perform(ReadDir(cfg.root))
    ensures req.route == UploadFile && req.file.Some? ==>
              Handle(cfg, req) == Perform(Rename(req.file.value.tmpPath, Join2(cfg.root, req.file.value.originalName)))
  {
    EmptyOrDotIsRoot(cfg.root, OrEmpty(req.queryPath));
  }

  /** `.` passes the guard of the delete route and still names the root:
      deleting it removes the whole workspace. */
  lemma DeleteDotRemovesRoot(cfg: Config, req: Request)
    requires ValidConfig(cfg) && Authorized(cfg, req)
    requires req.route == DeleteFile && req.queryPath == Some(".")
    ensures Handle(cfg, req) == Perform(Rm(cfg.root, true, true))
  {
    EmptyOrDotIsRoot(cfg.root, req.queryPath.value);
  }

  /** What an authorized request on a path route comes to, with the
      resolved path `target` (which always exists for a valid root). */
  lemma PathRouteOutcome(cfg: Config, req: Request)
    requires ValidConfig(cfg) && Authorized(cfg, req) && req.route != Execute
    ensures ResolvePath(cfg.root, OrEmpty(req.queryPath)).Success?
    ensures var target := ResolvePath(cfg.root, OrEmpty(req.queryPath)).value;
            Handle(cfg, req) ==
              match req.route
              case ListFiles => Perform(ReadDir(target))
              case UploadFile =>
                if req.file.None? then Respond(Response(500, CrashPage))
                else Perform(Rename(req.file.value.tmpPath, Join2(target, req.file.value.originalName)))
              case DownloadFile => if Truthy(req.queryPath) then Perform(Download(target)) else Fail(400, "path required")
              case DeleteFile => if Truthy(req.queryPath) then Perform(Rm(target, true, true)) else Fail(400, "path required")
              case MakeDir => if Truthy(req.queryPath) then Perform(Mkdir(target, true)) else Fail(400, "path required")
  {
    ResolveExact(cfg.root, OrEmpty(req.queryPath));
  }

  /** Every started readdir, download, rm (recursive, forced) and mkdir
      (recursive) targets a contained path, every process runs in the root
      with the fixed timeout, and `Invalid path` is never answered. A rename
      is started only by the upload route; `UploadDestination` says where it
      lands, which need not be inside the root. */
  lemma ActionsConfined(cfg: Config, req: Request)
    requires ValidConfig(cfg)
    ensures Handle(cfg, req) != Fail(400, ErrorMessage(InvalidPath))
    ensures Handle(cfg, req).Perform? ==>
              match Handle(cfg, req).action
              case ReadDir(p) => Contained(cfg.root, p)
              case Download(p) => Contained(cfg.root, p)
              case Rm(p, recursive, force) => Contained(cfg.root, p) && recursive && force
              case Mkdir(p, recursive) => Contained(cfg.root, p) && recursive
              case Rename(_, _) => req.route == UploadFile
              case Exec(_, cwd, timeoutMs) => cwd == cfg.root && timeoutMs == 10000
  {
    if Authorized(cfg, req) && req.route != Execute {
      PathRouteOutcome(cfg, req);
      ResolveContained(cfg.root, OrEmpty(req.queryPath));
    }
  }

  /** The upload destination is the file name joined onto the resolved
      directory; it is inside the root when the name has no `..` segment. */
  lemma UploadDestination(cfg: Config, req: Request)
    requires ValidConfig(cfg) && Authorized(cfg, req) && req.route == UploadFile
    ensures ResolvePath(cfg.root, OrEmpty(req.queryPath)).Success?
    ensures req.file.None? ==> Handle(cfg, req) == Respond(Response(500, CrashPage))
    ensures req.file.Some? ==>
              Handle(cfg, req) == Perform(Rename(req.file.value.tmpPath,
                Join2(ResolvePath(cfg.root, OrEmpty(req.queryPath)).value, req.file.value.originalName)))
    ensures req.file.Some? && NoParentSegment(Split(req.file.value.originalName, '/')) ==>
              Contained(cfg.root, Handle(cfg, req).action.dest)
  {
    ResolveContained(cfg.root, OrEmpty(req.queryPath));
    if req.file.Some? && NoParentSegment(Split(req.file.value.originalName, '/')) {
      UploadStaysInside(cfg.root, OrEmpty(req.queryPath), req.file.value.originalName);
    }
  }

  /** The execute route: 400 without a language and code, 400 for a language
      outside the switch, and otherwise the interpreter command in the root. */
  lemma ExecuteDispatch(cfg: Config, req: Request)
    requires Authorized(cfg, req) && req.route == Execute
    ensures (Handle(cfg, req) == Fail(400, "language and code required"))
              <==> (!Truthy(req.language) || !Truthy(req.code))
    ensures Truthy(req.language) && Truthy(req.code) ==>
              (Handle(cfg, req) == Fail(400, "Unsupported language") <==> req.language.value !in SupportedLanguages)
    ensures Truthy(req.language) && Truthy(req.code) && req.language.value in SupportedLanguages ==>
              Handle(cfg, req) == Perform(Exec(Command(req.language.value, req.code.value).value, cfg.root, 10000))
  {
  }

  /** The node and python commands carry the code as a JSON string literal
      that decodes back to exactly that code. */
  lemma CommandCarriesCode(language: string, code: string)
    requires language == "node" || language == "python"
    ensures var cmd := Command(language, code).value;
            var prefix := if language == "node" then "node -e " else "python -c ";
            prefix <= cmd && JsonString.DecodeString(cmd[|prefix|..]) == Some(code)
  {
    var prefix := if language == "node" then "node -e " else "python -c ";
    var cmd := Command(language, code).value;
    assert cmd == prefix + JsonString.Quote(code);
    assert cmd[|prefix|..] == JsonString.Quote(code);
    JsonString.QuoteRoundTrip(code);
  }

  /** The listing has one element per directory entry, in entry order, and
      a failed read answers 500 with the error message. */
  lemma ListingFaithful(result: Result<seq<Dirent>, string>)
    ensures result.Failure? ==> ReadDirCompleted(result) == Response(500, ErrorBody(result.error))
    ensures result.Success? ==>
              var r := ReadDirCompleted(result);
              r.status == 200 && r.body.ListingBody? && |r.body.entries| == |result.value| &&
              forall i :: 0 <= i < |result.value| ==>
                r.body.entries[i] == Entry(result.value[i].name, result.value[i].kind == Directory)
  {
  }

  /** A finished process always answers 200 with its stdout unchanged; an
      error message is put in front of stderr on a line of its own. */
  lemma ExecResultMerge(error: Option<string>, stdout: string, stderr: string)
    ensures ExecCompleted(error, stdout, stderr).status == 200
    ensures ExecCompleted(error, stdout, stderr).body.OutputBody?
    ensures ExecCompleted(error, stdout, stderr).body.stdout == stdout
    ensures var e := ExecCompleted(error, stdout, stderr).body.stderr;
            if error.None? then e == stderr
            else error.value + "\n" <= e && |e| == |error.value| + 1 + |stderr| && e[|error.value| + 1..] == stderr
  {
    if error.Some? {
      var e := error.value + "\n" + stderr;
      assert e[|error.value| + 1..] == stderr;
      assert (error.value + "\n") <= e;
    }
  }
}
