/** The browser client: the path and file-name helpers, the file list it
    builds from a listing, and the state behind the editor (`currentFile`,
    the editor text and mode, the console) with the save, run and new-file
    commands that read it. */
module Client {
  import opened Wrappers
  import opened Strings
  import opened PosixPath
  import opened Workspace
  import Server

  /** `getDir(path)`: the text before the last `/`, or `''` without one. */
  function GetDir(path: string): (dir: string)
    ensures dir <= path
    ensures '/' !in path ==> dir == ""
    ensures '/' in path ==> |dir| < |path| && path[|dir|] == '/' && '/' !in path[|dir| + 1..]
  {
    var idx := LastIndexOf(path, '/');
    if idx == -1 then "" else path[..idx]
  }

  /** `path.split('/').pop()`. */
  function BaseName(path: string): string {
    LastPiece(path, '/')
  }

  /** `li.dataset.path`: the entry's name under the directory of the list. */
  function TreePath(parentPath: string, name: string): (p: string)
    ensures |name| <= |p| && p[|p| - |name|..] == name
    ensures parentPath != "" ==> parentPath + "/" <= p
    ensures parentPath == "" ==> p == name
  {
    if parentPath != "" then parentPath + "/" + name else name
  }

  /** `name.split('.').pop()`: taken of the whole path, as the client does. */
  function Extension(name: string): string {
    LastPiece(name, '.')
  }

  /** The extension switch of `runCurrentFile`: only languages the server's
      switch accepts come out of it. */
  function LanguageFor(ext: string): (language: Option<string>)
    ensures language.Some? <==> ext in {"js", "py", "sh"}
    ensures ext == "js" ==> language == Some("node")
    ensures ext == "py" ==> language == Some("python")
    ensures ext == "sh" ==> language == Some("bash")
    ensures language.Some? ==> language.value in Server.SupportedLanguages
  {
    if ext == "js" then Some("node")
    else if ext == "py" then Some("python")
    else if ext == "sh" then Some("bash")
    else None
  }

  /** The editor modes the client sets. */
  const EditorModes: set<string> := {"javascript", "python", "htmlmixed", "css"}

  /** `setEditorModeByFileName`: javascript unless the extension names one of
      the other three modes. */
  function EditorMode(ext: string): (mode: string)
    ensures mode in EditorModes
    ensures mode != "javascript" <==> ext in {"py", "html", "css"}
    ensures ext == "py" ==> mode == "python"
    ensures ext == "html" ==> mode == "htmlmixed"
    ensures ext == "css" ==> mode == "css"
  {
    if ext == "js" then "javascript"
    else if ext == "py" then "python"
    else if ext == "html" then "htmlmixed"
    else if ext == "css" then "css"
    else "javascript"
  }

  /** One `li` of the file list: its text, its `data-path`, and whether a
      click loads the directory below it (bold) or opens the file. */
  datatype ListItem = ListItem(text: string, path: string, opensDirectory: bool)

  /** `buildFileList(items, parentPath)`: one item per entry, in entry
      order, a directory's label marked by a trailing `/`. */
  method BuildFileList(items: seq<Server.Entry>, parentPath: string) returns (ul: seq<ListItem>)
    ensures |ul| == |items|
    ensures forall i :: 0 <= i < |items| ==>
              ul[i].path == TreePath(parentPath, items[i].name) &&
              ul[i].opensDirectory == items[i].isDir &&
              (ul[i].text == items[i].name + "/" <==> items[i].isDir) &&
              (!items[i].isDir ==> ul[i].text == items[i].name)
  {
    ul := [];
    var i := 0;
    while i < |items|
      invariant 0 <= i <= |items|
      invariant |ul| == i
      invariant forall j :: 0 <= j < i ==>
                  ul[j].path == TreePath(parentPath, items[j].name) &&
                  ul[j].opensDirectory == items[j].isDir &&
                  (ul[j].text == items[j].name + "/" <==> items[j].isDir) &&
                  (!items[j].isDir ==> ul[j].text == items[j].name)
    {
      var item := items[i];
      var text := item.name + (if item.isDir then "/" else "");
      assert item.name + "/" != item.name by {
        assert |item.name + "/"| != |item.name|;
      }
      var li := ListItem(text, TreePath(parentPath, item.name), item.isDir);
      ul := ul + [li];
      i := i + 1;
    }
  }

  /** What a command of the client does outside its own state. */
  datatype Effect =
    | Alert(message: string)
    | UploadRequest(dir: string, fileName: string, content: string)  // POST /api/files/upload?path=dir
    | ExecuteRequest(language: string, code: string)                 // POST /api/execute

  const NoFileSelected := "No file selected"

  /** `consoleEl.textContent += msg + '\n'`. */
  function ConsoleLine(msg: string): string {
    msg + "\n"
  }

  const RunHeader := "----- RUN OUTPUT -----"
  const RunFooter := "----------------------"

  /** A line for a truthy message, nothing otherwise. */
  function OptionalLine(msg: Option<string>): string {
    if Server.Truthy(msg) then ConsoleLine(msg.value) else ""
  }

  /** What `runCurrentFile` prints for the server's answer. */
  function RunOutputText(stdout: Option<string>, stderr: Option<string>): (text: string)
    ensures ConsoleLine(RunHeader) <= text
    ensures |ConsoleLine(RunFooter)| <= |text| && text[|text| - |ConsoleLine(RunFooter)|..] == ConsoleLine(RunFooter)
    ensures !Server.Truthy(stdout) && !Server.Truthy(stderr) ==> text == ConsoleLine(RunHeader) + ConsoleLine(RunFooter)
  {
    ConsoleLine(RunHeader) + OptionalLine(stdout) + OptionalLine(stderr) + ConsoleLine(RunFooter)
  }

  /** The run output holds a truthy stdout right after the header and a
      truthy stderr right before the footer, and a line for nothing else. */
  lemma RunOutputLines(stdout: Option<string>, stderr: Option<string>)
    ensures var text := RunOutputText(stdout, stderr);
            |text| == |ConsoleLine(RunHeader)| + |ConsoleLine(RunFooter)|
                       + (if Server.Truthy(stdout) then |stdout.value| + 1 else 0)
                       + (if Server.Truthy(stderr) then |stderr.value| + 1 else 0)
    ensures Server.Truthy(stdout) ==> ConsoleLine(RunHeader) + ConsoleLine(stdout.value) <= RunOutputText(stdout, stderr)
    ensures var text := RunOutputText(stdout, stderr);
            Server.Truthy(stderr) ==>
              text[|text| - |ConsoleLine(RunFooter)| - |ConsoleLine(stderr.value)|..] == ConsoleLine(stderr.value) + ConsoleLine(RunFooter)
  {
    var out, err := OptionalLine(stdout), OptionalLine(stderr);
    assert |out| == (if Server.Truthy(stdout) then |stdout.value| + 1 else 0);
    assert |err| == (if Server.Truthy(stderr) then |stderr.value| + 1 else 0);
    FourPieces(ConsoleLine(RunHeader), out, err, ConsoleLine(RunFooter));
  }

  /** Where the pieces of a four-part concatenation sit. */
  lemma FourPieces(a: string, b: string, c: string, d: string)
    ensures |a + b + c + d| == |a| + |b| + |c| + |d|
    ensures a + b <= a + b + c + d
    ensures var s := a + b + c + d; s[|s| - |d| - |c|..] == c + d
  {
    var s := a + b + c + d;
    assert s == (a + b) + (c + d);
  }

  /** The page's state: the global `currentFile`, the editor's text and
      mode, and the console's text. */
  class Session {
    var currentFile: Option<string>
    var editorText: string
    var editorMode: string
    var consoleText: string

    /** The page as it loads: no file, an empty javascript editor. */
    constructor ()
      ensures currentFile == None && editorText == "" && editorMode == "javascript" && consoleText == ""
    {
      currentFile := None;
      editorText := "";
      editorMode := "javascript";
      consoleText := "";
    }

    /** The new-file button with the answer of the prompt (None when it was
        cancelled): only a non-empty name becomes the current file. */
    method NewFile(fileName: Option<string>)
      modifies this
      ensures Server.Truthy(fileName) ==> currentFile == fileName && editorText == ""
      ensures !Server.Truthy(fileName) ==> currentFile == old(currentFile) && editorText == old(editorText)
      ensures editorMode == old(editorMode) && consoleText == old(consoleText)
    {
      if !Server.Truthy(fileName) {
        return;
      }
      currentFile := fileName;
      editorText := "";
    }

    /** `saveCurrentFile`: without a current file only an alert; otherwise
        the editor text is uploaded under the file's name into its directory. */
    method Save() returns (effect: Effect)
      ensures !Server.Truthy(currentFile) ==> effect == Alert(NoFileSelected)
      ensures Server.Truthy(currentFile) ==>
                effect == UploadRequest(GetDir(currentFile.value), BaseName(currentFile.value), editorText)
    {
      if !Server.Truthy(currentFile) {
        return Alert(NoFileSelected);
      }
      var file := currentFile.value;
      effect := UploadRequest(GetDir(file), BaseName(file), editorText);
    }

    /** `runCurrentFile`: an alert without a current file or for an
        extension without a language, otherwise the editor text is sent to
        run in that language. */
    method Run() returns (effect: Effect)
      ensures !Server.Truthy(currentFile) ==> effect == Alert(NoFileSelected)
      ensures Server.Truthy(currentFile) && LanguageFor(Extension(currentFile.value)).None? ==>
                effect == Alert("Unsupported file type for execution")
      ensures Server.Truthy(currentFile) && LanguageFor(Extension(currentFile.value)).Some? ==>
                effect == ExecuteRequest(LanguageFor(Extension(currentFile.value)).value, editorText)
      ensures effect.ExecuteRequest? ==> effect.language in Server.SupportedLanguages
    {
      if !Server.Truthy(currentFile) {
        return Alert(NoFileSelected);
      }
      var language := LanguageFor(Extension(currentFile.value));
      if language.None? {
        return Alert("Unsupported file type for execution");
      }
      effect := ExecuteRequest(language.value, editorText);
    }

    /** `appendConsole(msg)`. */
    method AppendConsole(msg: string)
      modifies this
      ensures consoleText == old(consoleText) + ConsoleLine(msg)
      ensures currentFile == old(currentFile) && editorText == old(editorText) && editorMode == old(editorMode)
    {
      consoleText := consoleText + ConsoleLine(msg);
    }

    /** The success path of `openFile`: the downloaded text becomes the
        editor's, the path the current file, and the mode follows its
        extension. */
    method FileOpened(filePath: string, text: string)
      modifies this
      ensures currentFile == Some(filePath) && editorText == text
      ensures editorMode == EditorMode(Extension(filePath))
      ensures consoleText == old(consoleText) + ConsoleLine("Opened " + filePath)
    {
      currentFile := Some(filePath);
      editorText := text;
      editorMode := EditorMode(Extension(filePath));
      AppendConsole("Opened " + filePath);
    }

    /** The answer handler of `runCurrentFile`: the output between two rulers,
        skipping an empty or missing stdout or stderr. */
    method ShowRunOutput(stdout: Option<string>, stderr: Option<string>)
      modifies this
      ensures consoleText == old(consoleText) + RunOutputText(stdout, stderr)
      ensures currentFile == old(currentFile) && editorText == old(editorText) && editorMode == old(editorMode)
    {
      ghost var before := consoleText;
      AppendConsole(RunHeader);
      if Server.Truthy(stdout) {
        AppendConsole(stdout.value);
      }
      assert consoleText == before + ConsoleLine(RunHeader) + OptionalLine(stdout);
      if Server.Truthy(stderr) {
        AppendConsole(stderr.value);
      }
      assert consoleText == before + ConsoleLine(RunHeader) + OptionalLine(stdout) + OptionalLine(stderr);
      AppendConsole(RunFooter);
      Associate(before, ConsoleLine(RunHeader), OptionalLine(stdout), OptionalLine(stderr), ConsoleLine(RunFooter));
    }
  }

  /** Appending five pieces one after the other appends their concatenation. */
  lemma Associate(s: string, a: string, b: string, c: string, d: string)
    ensures s + a + b + c + d == s + (a + b + c + d)
  {
  }

  // ----- Properties -----

  /** A path with a separator is its directory, `/`, and its base name. */
  lemma DirAndBaseName(path: string)
    ensures '/' !in path ==> GetDir(path) == "" && BaseName(path) == path
    ensures '/' in path ==> path == GetDir(path) + "/" + BaseName(path)
  {
    LastPieceAfterLastSeparator(path, '/');
    if '/' !in path {
      SplitWithoutSeparator(path, '/');
    } else {
      var k := LastIndexOf(path, '/');
      assert path == path[..k] + "/" + path[k + 1..];
    }
  }

  /** Save round trip: a path the tree built from a directory and an entry
      name splits back into exactly that directory and name. */
  lemma SaveRoundTrip(parentPath: string, name: string)
    requires '/' !in name
    ensures GetDir(TreePath(parentPath, name)) == parentPath
    ensures BaseName(TreePath(parentPath, name)) == name
  {
    var p := TreePath(parentPath, name);
    if parentPath == "" {
      SplitWithoutSeparator(name, '/');
    } else {
      assert p == parentPath + "/" + name;
      var k := LastIndexOf(p, '/');
      assert p[|parentPath|] == '/';
      assert k == |parentPath|;
      assert p[..k] == parentPath;
      LastPieceAfterLastSeparator(p, '/');
      assert p[k + 1..] == name;
    }
  }

  /** The three tags the client sends are exactly the languages the server
      runs. */
  lemma LanguagesMatchServer(language: string)
    ensures language in Server.SupportedLanguages <==> exists ext :: LanguageFor(ext) == Some(language)
  {
    if language in Server.SupportedLanguages {
      var ext := if language == "node" then "js" else if language == "python" then "py" else "sh";
      assert LanguageFor(ext) == Some(language);
    }
  }

  /** Files the client runs as python are edited in python mode, files it
      runs as node in javascript mode. */
  lemma ModeFollowsLanguage(ext: string)
    ensures LanguageFor(ext) == Some("python") <==> EditorMode(ext) == "python"
    ensures LanguageFor(ext) == Some("node") ==> EditorMode(ext) == "javascript"
  {
  }

  /** Saving a file opened from the tree uploads it, through the server,
      to the name joined onto the resolved directory, inside the workspace
      (`SaveTargetIsTreePath`: the very path the tree showed). */
  lemma SaveLandsInTree(cfg: Server.Config, parentPath: string, name: string, tmpPath: string)
    requires Server.ValidConfig(cfg)
    requires Canonical(name)
    ensures var p := TreePath(parentPath, name);
            var req := Server.Request(Server.UploadFile, Some(cfg.token), None, Some(GetDir(p)), None, None,
                                      Some(Server.Upload(tmpPath, BaseName(p))));
            ResolvePath(cfg.root, parentPath).Success? &&
            Server.Handle(cfg, req) == Server.Perform(Server.Rename(tmpPath, Join2(ResolvePath(cfg.root, parentPath).value, name))) &&
            Contained(cfg.root, Join2(ResolvePath(cfg.root, parentPath).value, name))
  {
    var p := TreePath(parentPath, name);
    assert GetDir(p) == parentPath && BaseName(p) == name by {
      SaveRoundTrip(parentPath, name);
    }
    var req := Server.Request(Server.UploadFile, Some(cfg.token), None, Some(parentPath), None, None,
                              Some(Server.Upload(tmpPath, name)));
    assert Server.Authorized(cfg, req) && Server.OrEmpty(req.queryPath) == parentPath;
    assert NoParentSegment(Split(name, '/')) by {
      SplitWithoutSeparator(name, '/');
    }
    Server.UploadDestination(cfg, req);
  }

  /** The tree path of a canonical entry name keeps the directory's
      segments, adds the name, and has no trailing separator. */
  lemma TreePathSegments(parentPath: string, name: string)
    requires Canonical(name)
    ensures Segments(TreePath(parentPath, name)) == Segments(parentPath) + [name]
    ensures !KeepsTrailingSlash(TreePath(parentPath, name))
  {
    assert Split(name, '/') == [name] by {
      SplitWithoutSeparator(name, '/');
    }
    if parentPath == "" {
      assert Split(parentPath, '/') == [""] by {
        SplitWithoutSeparator(parentPath, '/');
      }
      assert Segments(parentPath) == [];
      assert Fold([], [name], false) == [name];
    } else {
      assert Split(TreePath(parentPath, name), '/') == Split(parentPath, '/') + [name] by {
        assert TreePath(parentPath, name) == parentPath + ['/'] + name;
        SplitAround(parentPath, name, '/');
      }
      assert Fold([], Split(parentPath, '/') + [name], false) == Segments(parentPath) + [name] by {
        FoldAppend([], Split(parentPath, '/'), [name], false);
      }
    }
  }

  /** The path a save uploads to is the path `openFile` downloaded from:
      the name joined onto the resolved directory is what the server
      resolves the tree path to. */
  lemma SaveTargetIsTreePath(root: string, parentPath: string, name: string)
    requires IsNormalRoot(root)
    requires Canonical(name)
    ensures ResolvePath(root, parentPath).Success? && ResolvePath(root, TreePath(parentPath, name)).Success?
    ensures Join2(ResolvePath(root, parentPath).value, name) == ResolvePath(root, TreePath(parentPath, name)).value
  {
    var segs, t := Segments(parentPath), KeepsTrailingSlash(parentPath);
    assert ResolvePath(root, parentPath) == Success(Place(root, segs, t)) by {
      ResolveExact(root, parentPath);
    }
    assert AllCanonical(segs) by {
      SafePathShape(parentPath);
    }
    assert ResolvePath(root, TreePath(parentPath, name)) == Success(Place(root, segs + [name], false)) by {
      TreePathSegments(parentPath, name);
      ResolveExact(root, TreePath(parentPath, name));
    }
    JoinCanonicalName(root, segs, t, name);
  }

  /** Running a file the client has a language for reaches the interpreter,
      unless the file is empty: the server refuses empty code. */
  lemma RunReachesServer(cfg: Server.Config, language: string, code: string)
    requires cfg.token != "" && language in Server.SupportedLanguages
    ensures var req := Server.Request(Server.Execute, Some(cfg.token), None, None, Some(language), Some(code), None);
            if code == "" then Server.Handle(cfg, req) == Server.Fail(400, "language and code required")
            else Server.Handle(cfg, req) == Server.Perform(Server.Exec(Server.Command(language, code).value, cfg.root, 10000))
  {
  }
}
