# cloud-ide: a verified model of the request logic and its client helpers

cloud-ide is a small browser IDE. An Express server keeps a workspace
directory, lists, uploads, downloads, deletes and creates files in it, and
runs code in node, python or bash. Every API route and the socket.io
handshake are guarded by one shared token. The browser client shows the
file tree, edits and saves the current file, and runs it.

This project models the decisions behind that, in Dafny:

- `wrappers.dfy`: `Option` and `Result`.
- `strings.dfy`: JavaScript's `split`, `join` and `lastIndexOf` on strings,
  with the lemmas that relate them.
- `posix_path.dfy`: Node's POSIX `path.normalize` and `path.join`. A path is
  read as its `/`-separated segments and folded over a stack: empty and `.`
  segments are dropped, and `..` pops a kept segment. A `..` with nothing to
  pop is kept in a relative path and absorbed in an absolute one. A trailing
  separator is kept, as Node keeps it.
- `workspace.dfy`: `WORKSPACE_ROOT` and `resolvePath`. Its central theorem
  is containment: for every user path, `resolvePath` returns the root or the
  root followed by `/s1/.../sn`, where no segment is empty, `.` or `..`. It
  never throws `Invalid path` for a root in normal form. The workspace root
  derived from an absolute `__dirname` is one. The clamp cases (`''`, `.`,
  `/`, `..`, `../../..`, `../../etc/passwd`) are proved, and so is the
  escape through an upload's file name.
- `json_string.dfy`: `JSON.stringify` of a string. It is paired with a
  decoder for JSON string literals following section 7 of RFC 8259, and the
  two are proved to round-trip.
- `server.dfy`: `checkAuth`, the socket handshake and the six route
  handlers. Each handler is a pure function from a request to an `Outcome`:
  either the response sent straight away, or the action it starts
  (`ReadDir`, `Rename`, `Rm`, `Mkdir`, `Download`, `Exec`). Functions for the
  callbacks turn that action's result into the response.
- `client.dfy`: the client's helpers (`getDir`, the tree's `data-path`, the
  extension to language and extension to editor mode switches). It also
  holds `buildFileList` as a loop, and the page state (`currentFile`, editor
  text and mode, console) as a class. Save, run, new-file, open and console
  output are its methods.

Facts about the code that the model keeps:

- The list route answers with the entries in the order `fs.readdir` gives
  them, and the model keeps that order.
- The execution timeout is the constant 10000 ms.
- `path.join` keeps a trailing separator, so `resolvePath('a/')` ends in `/`.
  The model tracks it.
- The `startsWith` check of `resolvePath` can fail only for a root that is
  not in normal form. The model proves it never fails for the real root, and
  shows it failing for a root such as `/a/..`.
- That check has no separator boundary: a sibling such as `workspace2`
  starts with `workspace` and would pass it. `Workspace.ResolveContained`
  proves that no result is ever such a sibling: every result is the root or
  starts with the root followed by `/`.

The file system, the child process, the socket and the page are outside the
model. Their results enter as parameters of the callback functions and the
client methods.

## Model

| member | source | states |
|---|---|---|
| Strings.Split | public/app.js:205 | `split` never gives an empty array and no piece holds the separator; `JoinSplit` and `SplitJoin` are its round trip |
| Strings.JoinSplit | public/app.js:205 | joining the pieces of a split with the separator restores the string |
| Strings.SplitJoin | server.js:45 | splitting a join of separator-free pieces gives the pieces back |
| Strings.LastPiece | public/app.js:205 | `split(sep).pop()` is the text after the last separator (the whole string without one), and holds no separator; `BaseName` takes it with `/` and `Extension` with `.` (public/app.js:227, 267, 289) |
| Strings.LastIndexOf | public/app.js:280 | -1 exactly when the character is absent; otherwise an index holding it with no later occurrence |
| PosixPath.FoldStaysCanonical | server.js:45 | normalizing an absolute path never leaves an empty, `.` or `..` segment on the stack |
| PosixPath.Normalize | server.js:45 | `path.normalize('')` is `.`, and an absolute path stays absolute |
| PosixPath.Join2 | server.js:46 | `path.join('', '')` is `.`, and a join whose first non-empty argument is absolute is absolute |
| PosixPath.NormalizeRendered | server.js:45 | `path.normalize` is idempotent on a rendered absolute path |
| PosixPath.JoinOntoAbsolute | server.js:46 | `path.join(a, b)` for an absolute `a` keeps `a`'s normalized segments, then folds `b`'s segments onto them, keeping `b`'s trailing separator |
| PosixPath.JoinOntoRendered | server.js:46 | joining onto an already normal path folds the second argument's segments onto the first path's segments |
| Workspace.StripLeadingSlashes | server.js:45 | `replace(/^\/+/, '')` removes a prefix made only of `/` and leaves a suffix that does not start with `/` |
| Workspace.SafePath | server.js:45 | the safe path never starts with `/`, so it is relative |
| Workspace.ResolvePath | server.js:44-51 | a returned path starts with the root, and the only error is `Invalid path` |
| Workspace.RootedUserPath | server.js:45 | `path.normalize('/' + userPath)` is `/` followed by the kept segments of the user path, with its trailing separator |
| Workspace.SafePathShape | server.js:45 | the safe path is the kept segments joined by `/` (plus a trailing `/`), or empty when none is kept; every kept segment is canonical |
| Workspace.JoinNameIsNormal | server.js:14 | joining a canonical name onto an absolute directory gives a normal root whose last segment is that name |
| Workspace.WorkspaceRoot | server.js:14 | for an absolute `__dirname`, `path.join(__dirname, 'workspace')` is a normal root whose last segment is `workspace` |
| Workspace.ResolveExact | server.js:44-51 | `resolvePath` always succeeds, and returns the root followed by the user path's kept segments and trailing separator |
| Workspace.ResolveContained | server.js:44-51 | containment: the result is the root, or the root, `/`, and canonical segments; it starts with `root + "/"` whenever it is not the root |
| Workspace.ContainedBoundary | server.js:47 | a contained path is the root or begins with `root + "/"`, so a sibling such as `workspace2` is never contained |
| Workspace.NothingKeptIsRoot | server.js:44-51 | a user path whose segments all cancel resolves to the root itself |
| Workspace.EmptyOrDotIsRoot | server.js:45-46 | `''`, `.` and `..` resolve to the root |
| Workspace.ClimbAbsorbed | server.js:45 | a leading `..` changes neither the kept segments nor the trailing separator |
| Workspace.ClimbResolves | server.js:45-46 | `resolvePath('../' + rest)` equals `resolvePath(rest)` |
| Workspace.TwoSegmentsKept | server.js:45 | `first/second` keeps both segments and no trailing separator |
| Workspace.LeadingSlashResolves | server.js:45 | `resolvePath('/' + rest)` equals `resolvePath(rest)` |
| Workspace.ClampedToRoot | server.js:45-46 | `''`, `.`, `/`, `..` and `../../..` all resolve to exactly the root |
| Workspace.TraversalClamped | server.js:45-46 | `../../first/second` resolves to `root/first/second`, never to `/first/second` |
| Workspace.CanonicalSafePath | server.js:45 | a canonical name is its own safe path |
| Workspace.ClimbBackJoin | server.js:46 | `path.join('/a/..', x)` is `/x` |
| Workspace.InvalidPathForUnnormalizedRoot | server.js:47-49 | for the root `/a/..`, which is not normal, and a single canonical name `x`, `resolvePath(x)` throws `Invalid path` |
| Workspace.UploadStaysInside | server.js:81-82 | the upload destination stays inside the root when the file name has no `..` segment |
| Workspace.JoinInside | server.js:82 | joining a name without `..` segments onto a contained path gives a contained path |
| Workspace.UploadParentEscapes | server.js:82 | `path.join(root, '../name')` replaces the root's last segment; it is contained exactly when `name` is that same segment |
| JsonString.Quote | server.js:144 | the quoted string is at least two characters long and starts and ends with `"` |
| JsonString.UnescapeEscapeChar | server.js:144 | decoding one escaped character gives the character back, followed by the decoding of the rest |
| JsonString.UnescapeEscapeBody | server.js:144 | decoding the escaped characters gives the original string |
| JsonString.QuoteRoundTrip | server.js:143-148 | the JSON string literal built for a string decodes back to exactly that string |
| Server.ConfiguredToken | server.js:11 | the token is never empty; a set, non-empty variable is taken as is, and otherwise the token is `changeme` |
| Server.ServerConfigValid | server.js:11-14 | the server's token and workspace root form a valid configuration for an absolute `__dirname` |
| Server.PresentedToken | server.js:36 | the presented token is the header or the query token; a truthy header is always the one presented, and an empty token can only come from the query |
| Server.Authorized | server.js:35-41 | a request passes only when its header or query token equals the configured one, and a correct header always passes |
| Server.Handshake | server.js:164-170 | the handshake accepts exactly the configured token and otherwise rejects with `Unauthorized` |
| Server.Handle | server.js:35-161 | an unauthorized request is answered 401 `Unauthorized`; an authorized one is answered directly only with 400 or 500 |
| Server.ReadDirCompleted | server.js:62-66 | 200 exactly when the read succeeded, with one listing element per entry; a failure answers 500 with its message |
| Server.FsCompleted | server.js:83-131 | the rename, rm and mkdir callbacks (lines 83-86, 112-115 and 128-131) answer 200 `{success: true}` exactly without an error, and 500 with the message otherwise |
| Server.ExecCompleted | server.js:155-159 | always 200 with stdout unchanged; without an error stderr is passed through |
| Server.HandleList | server.js:54-67 | the list route answers on its own only with 400 |
| Server.HandleUpload | server.js:73-87 | the upload route answers on its own only with 400 or 500 |
| Server.HandleDownload | server.js:90-100 | the download route answers on its own only with 400 |
| Server.HandleDelete | server.js:103-116 | the delete route answers on its own only with 400 |
| Server.HandleMkdir | server.js:119-132 | the mkdir route answers on its own only with 400 |
| Server.HandleExecute | server.js:135-161 | the execute route answers on its own only with 400 |
| Server.UnauthorizedIff | server.js:35-41 | 401 `Unauthorized` is answered exactly when the token check fails, and then no action is started |
| Server.HeaderPrecedence | server.js:36 | a truthy header token is the one compared; otherwise the query token is |
| Server.EmptyTokenRejected | server.js:36-37 | since the configured token is never empty, a request presenting no token or an empty one is rejected, and so is an empty token at the handshake |
| Server.HandshakeAgrees | server.js:164-170 | the handshake accepts exactly the configured token, the same strict comparison as `checkAuth` |
| Server.PathRequiredIff | server.js:91-121 | download, delete and mkdir (the guards at lines 91-92, 104-105 and 120-121) answer 400 `path required` exactly when `path` is missing or empty |
| Server.DefaultsToRoot | server.js:53-87 | list and upload treat a missing or empty `path` as the root |
| Server.DeleteDotRemovesRoot | server.js:103-112 | `path=.` passes the delete guard and removes the whole root, recursively and forced |
| Server.PathRouteOutcome | server.js:53-132 | once authorized, each path route starts its action on the resolved path, or answers `path required` or the upload crash |
| Server.ActionsConfined | server.js:53-161 | `Invalid path` is never answered; every started readdir, download, rm (recursive, forced) and mkdir (recursive) targets a contained path, and every exec runs in the root with timeout 10000; a rename is started only by the upload route, and `UploadDestination` says where it lands |
| Server.UploadDestination | server.js:73-87 | an upload without a file crashes with 500; otherwise the file is renamed to the name joined onto the resolved directory, which is contained when the name has no `..` |
| Server.Command | server.js:141-154 | a command exists exactly for node, python and bash; bash runs the code verbatim |
| Server.ExecuteDispatch | server.js:135-155 | 400 exactly without a truthy language and code; 400 `Unsupported language` exactly outside the switch; otherwise an `Exec` of the command in the root with timeout 10000 |
| Server.CommandCarriesCode | server.js:143-148 | the node and python commands are the flag followed by a JSON string literal that decodes back to the code |
| Server.ToListing | server.js:64 | one entry per directory entry, in order, with its name and whether it is a directory |
| Server.ListingFaithful | server.js:62-66 | a failed read answers 500 with the message; otherwise 200 with exactly one `{name, isDir}` per entry, in entry order |
| Server.ExecResultMerge | server.js:155-159 | always 200 with stdout unchanged; on error stderr is the message, a newline, then the original stderr |
| Client.GetDir | public/app.js:279-282 | `''` without a `/`; otherwise the prefix before the last `/`; always a prefix of the path |
| Client.TreePath | public/app.js:146 | the tree path ends with the entry's name; under a non-empty parent it starts with the parent and `/`, and at the top it is the name alone |
| Client.RunOutputText | public/app.js:246-251 | the run output starts with the header line and ends with the footer line, and is just those two lines when stdout and stderr are both empty |
| Client.RunOutputLines | public/app.js:246-251 | a truthy stdout is the line right after the header and a truthy stderr the line right before the footer; the length counts exactly the two rulers and a line for each truthy output, so nothing else is printed |
| Client.LanguageFor | public/app.js:227-235 | `js` gives node, `py` python and `sh` bash; no other extension gives a language |
| Client.EditorMode | public/app.js:266-273 | `py` gives python, `html` htmlmixed and `css` css; every other extension, `js` included, gives javascript |
| Client.BuildFileList | public/app.js:140-172 | one item per entry, in input order, with the tree path; the label is `name + '/'` exactly for a directory, and the bare name otherwise |
| Client.Session.constructor | public/app.js:3 | the page starts with no current file and an empty javascript editor |
| Client.Session.NewFile | public/app.js:45-51 | only a non-empty name becomes the current file, and then the editor is cleared; nothing else changes |
| Client.Session.Save | public/app.js:198-206 | without a current file only an alert; otherwise an upload of the editor text under the base name into the file's directory |
| Client.Session.Run | public/app.js:222-243 | without a current file, or for an extension without a language, only an alert; otherwise the editor text is sent in a language the server runs |
| Client.Session.AppendConsole | public/app.js:258-261 | the console gains the message and a newline; nothing else changes |
| Client.Session.FileOpened | public/app.js:182-188 | the downloaded text and path become the editor's, and the mode follows the extension |
| Client.Session.ShowRunOutput | public/app.js:246-251 | the console gains the output between two rulers, skipping an empty stdout or stderr |
| Client.DirAndBaseName | public/app.js:205-206 | a path with a `/` is its directory, `/`, and its base name; without one the directory is empty and the base name is the path |
| Client.SaveRoundTrip | public/app.js:146 | for a name without `/`, the tree path splits back into exactly the parent path and the name |
| Client.LanguagesMatchServer | public/app.js:229-231 | the languages the client sends are exactly those the server's switch accepts |
| Client.ModeFollowsLanguage | public/app.js:266-273 | a file run with python is edited in python mode, and one run with node in javascript mode |
| Client.TreePathSegments | public/app.js:146 | the tree path of a canonical name keeps the directory's segments, adds the name, and has no trailing separator |
| Client.SaveTargetIsTreePath | public/app.js:177-210 | the name joined onto the resolved directory, where a save uploads, is exactly what the server resolves the tree path to, where `openFile` downloaded |
| Workspace.JoinCanonicalName | server.js:82 | joining a canonical name onto a contained path adds exactly that segment, with no trailing separator |
| Client.SaveLandsInTree | public/app.js:198-210 | saving a file opened from the tree renames the upload to the name joined onto the resolved parent directory, inside the workspace |
| Client.RunReachesServer | public/app.js:236-244 | running with a supported language reaches the interpreter, except for empty code, which the server refuses with 400 |

## Left out

- Node's `path` module is not part of the repository. Its POSIX `normalize` and `join` are written out from Node's documented behaviour. Windows paths, symbolic links, null bytes and Unicode normalization are not modelled.
- Query, header and body values are modelled as strings or absent. Express also allows arrays and objects, and JSON bodies may hold non-string values; those cases are not modelled.
- Workspace.UploadParentEscapes: multer may strip directories from the client's file name before the handler sees it. The model takes the name as given, so the lemma shows what the handler itself allows.
- JsonString.Quote: Dafny characters are Unicode scalar values, so the escapes `JSON.stringify` writes for lone surrogates are not modelled.
- Server.CommandCarriesCode: only the JSON round trip is stated. The command is not shell-safe: `$()` and backticks still expand inside double quotes, and bash runs the code verbatim. Shell parsing is not modelled.
- The file system (`readdir`, `rename`, `rm`, `mkdir`, the startup `existsSync`/`mkdirSync`), `res.download` streaming, multer's temporary files and `exec` (timeout kill, output capture, the exact error text) are I/O. Handlers emit them as actions, and the callbacks take their results as parameters.
- The port, CORS, static serving and the socket.io connection and broadcast relay are server plumbing and concurrency.
- In the client: the DOM and CodeMirror rendering, `localStorage`, the `fetch` requests themselves, the connect button, the upload input, key bindings, the socket handlers, `updatePreview` and the debounced preview timer are UI glue. Client.Session.NewFile and Client.Session.FileOpened leave out the `updatePreview` call they make.
- Of the promise callbacks, only the success callbacks of `openFile` (public/app.js:182-188, as Client.Session.FileOpened) and `runCurrentFile` (public/app.js:246-251, as Client.Session.ShowRunOutput) are modelled.
- The save callback's `appendConsole('Saved ' + currentFile)` and tree reload (public/app.js:212-215) are not modelled: the console line reads `currentFile` at the time the answer arrives, which the model has no event for.
- The error handlers (public/app.js:189-192, 216 and 252) are not modelled: they only log or alert a network error, which the model does not produce.
- Client.BuildFileList returns the items of the list; it leaves out the click handlers that fetch a directory's children or open a file, which are DOM and network glue.
