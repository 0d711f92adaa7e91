/** The workspace sandbox of the server: `WORKSPACE_ROOT` and
    `resolvePath`, which maps an untrusted relative path onto a path inside
    the root. */
module Workspace {
  import opened Wrappers
  import opened Strings
  import opened PosixPath

  /** The one error `resolvePath` throws. */
  datatype PathError = InvalidPath

  function ErrorMessage(e: PathError): string {
    match e
    case InvalidPath => "Invalid path"
  }

  /** `WORKSPACE_ROOT = path.join(__dirname, 'workspace')`. */
  function WorkspaceRoot(dirname: string): (root: string)
    ensures dirname != "" && dirname[0] == '/' ==>
              IsNormalRoot(root) && Last(RootSegments(root)) == "workspace"
  {
    WorkspaceJoinIsNormal(dirname);
    Join2(dirname, "workspace")
  }

  /** An absolute path in normal form: `/` followed by at least one
      canonical segment, with no trailing separator. */
  predicate IsNormalRoot(root: string) {
    |root| >= 2 && root[0] == '/' && AllCanonical(Split(root[1..], '/'))
  }

  function RootSegments(root: string): seq<string>
    requires IsNormalRoot(root)
  {
    Split(root[1..], '/')
  }

  /** The root followed by `/s1/.../sn`, and possibly a trailing separator. */
  function Place(root: string, segs: seq<string>, trailingSlash: bool): string {
    root + (if segs == [] then "" else "/" + Join(segs, '/')) + (if trailingSlash then "/" else "")
  }

  /** `full` is the root itself or lies inside it: it is the root followed by
      segments none of which is empty, `.` or `..`. */
  ghost predicate Contained(root: string, full: string) {
    exists segs: seq<string>, trailingSlash: bool ::
      AllCanonical(segs) && full == Place(root, segs, trailingSlash)
  }

  /** `.replace(/^\/+/, '')`. */
  function StripLeadingSlashes(s: string): (r: string)
    ensures r == [] || r[0] != '/'
    ensures |r| <= |s| && s[|s| - |r|..] == r
    ensures forall i :: 0 <= i < |s| - |r| ==> s[i] == '/'
    decreases |s|
  {
    if s != [] && s[0] == '/' then StripLeadingSlashes(s[1..]) else s
  }

  /** The segments a user path keeps after normalization against `/`. */
  function Segments(userPath: string): seq<string> {
    Fold([], Split(userPath, '/'), false)
  }

  /** A trailing separator of the user path survives when a segment is kept. */
  predicate KeepsTrailingSlash(userPath: string) {
    Segments(userPath) != [] && Last(Split(userPath, '/')) == ""
  }

  /** `safePath`: the user path normalized against `/`, made relative. */
  function SafePath(userPath: string): (safe: string)
    ensures safe == [] || safe[0] != '/'
  {
    StripLeadingSlashes(Normalize("/" + userPath))
  }

  /** `resolvePath(userPath)` against the workspace root `root`. */
  function ResolvePath(root: string, userPath: string): (r: Result<string, PathError>)
    ensures r.Success? ==> root <= r.value
    ensures r.Failure? ==> r.error == InvalidPath
  {
    var fullPath := Join2(root, SafePath(userPath));
    if root <= fullPath then Success(fullPath) else Failure(InvalidPath)
  }

  /** A normal root is the rendering of its own segments. */
  lemma RootRendered(root: string)
    requires IsNormalRoot(root)
    ensures RootSegments(root) != []
    ensures root == Render(RootSegments(root), false)
  {
    JoinSplit(root[1..], '/');
    assert Canonical(RootSegments(root)[0]);
    assert root == "/" + root[1..];
  }

  /** Rendering the root's segments followed by more: the root, then the rest. */
  lemma RenderUnderRoot(root: string, segs: seq<string>, trailingSlash: bool)
    requires IsNormalRoot(root)
    ensures Render(RootSegments(root) + segs, trailingSlash) == Place(root, segs, trailingSlash)
  {
    var rs := RootSegments(root);
    var ts := if trailingSlash then "/" else "";
    RootRendered(root);
    if segs == [] {
      assert rs + segs == rs;
      assert Render(rs, trailingSlash) == "/" + Join(rs, '/') + ts;
      assert Place(root, segs, trailingSlash) == root + "" + ts;
    } else {
      var jr, js := Join(rs, '/'), Join(segs, '/');
      assert Join(rs + segs, '/') == jr + "/" + js by {
        JoinAppend(rs, segs, '/');
      }
      assert root == "/" + jr;
      assert "/" + (jr + "/" + js) + ts == root + ("/" + js) + ts;
    }
  }

  lemma JoinStartsWithFirst(parts: seq<string>, sep: char)
    requires |parts| >= 1
    ensures parts[0] <= Join(parts, sep)
  {
  }

  /** The relative path `resolvePath` joins onto the root. */
  lemma SafePathShape(userPath: string)
    ensures AllCanonical(Segments(userPath))
    ensures var segs := Segments(userPath);
            var trailing := Last(Split(userPath, '/')) == "";
            SafePath(userPath)
            == if segs == [] then "" else Join(segs, '/') + (if trailing then "/" else "")
  {
    var segs := Segments(userPath);
    var trailing := Last(Split(userPath, '/')) == "";
    FoldStaysCanonical([], Split(userPath, '/'));
    RootedUserPath(userPath);
    StripRendered(segs, trailing);
  }

  /** Stripping the leading separator of a rendered path. */
  lemma StripRendered(segs: seq<string>, trailing: bool)
    requires AllCanonical(segs)
    ensures StripLeadingSlashes(Render(segs, trailing))
            == if segs == [] then "" else Join(segs, '/') + (if trailing then "/" else "")
  {
    if segs != [] {
      var rest := Join(segs, '/') + (if trailing then "/" else "");
      assert rest != [] && rest[0] != '/' by {
        JoinStartsWithFirst(segs, '/');
        assert Canonical(segs[0]);
        assert rest[0] == segs[0][0];
      }
      assert Render(segs, trailing) == "/" + rest;
      assert StripLeadingSlashes("/" + rest) == StripLeadingSlashes(rest) by {
        assert ("/" + rest)[1..] == rest;
      }
    }
  }

  /** `path.normalize('/' + userPath)`: the kept segments under `/`. */
  lemma RootedUserPath(userPath: string)
    ensures Normalize("/" + userPath)
            == Render(Segments(userPath), Last(Split(userPath, '/')) == "")
  {
    var pieces := Split(userPath, '/');
    var p := "/" + userPath;
    var all := Split(p, '/');
    assert all == [""] + pieces by {
      SplitAround("", userPath, '/');
      assert p == "" + ['/'] + userPath;
    }
    assert Fold([], all, false) == Segments(userPath) by {
      FoldSkips([], "", pieces);
    }
    assert Last(all) == Last(pieces);
    assert Normalize(p) == Render(Fold([], all, false), Last(all) == "") by {
      assert p[0] == '/';
      NormalizeAbsolute(p);
    }
  }

  /** The pieces of the relative path `resolvePath` joins onto the root. */
  lemma SafePathPieces(segs: seq<string>, trailing: bool)
    requires segs != [] && AllCanonical(segs)
    ensures var safe := Join(segs, '/') + (if trailing then "/" else "");
            Split(safe, '/') == segs + (if trailing then [""] else [])
  {
    SplitJoin(segs, '/');
    if trailing {
      SplitAround(Join(segs, '/'), "", '/');
      assert Join(segs, '/') + ['/'] + "" == Join(segs, '/') + "/";
      assert Split("", '/') == [""];
    } else {
      assert Join(segs, '/') + "" == Join(segs, '/');
      assert segs + [] == segs;
    }
  }

  /** Joining the safe path onto a normal root, when nothing is kept. */
  lemma JoinSafeEmpty(root: string, userPath: string)
    requires IsNormalRoot(root)
    requires Segments(userPath) == []
    ensures Join2(root, SafePath(userPath)) == root
  {
    RootRendered(root);
    SafePathShape(userPath);
    NormalizeRendered(RootSegments(root), false);
  }

  /** Joining a relative path of canonical segments onto a normal root. */
  lemma JoinRelative(root: string, segs: seq<string>, trailing: bool)
    requires IsNormalRoot(root)
    requires segs != [] && AllCanonical(segs)
    ensures Join2(root, Join(segs, '/') + (if trailing then "/" else "")) == Place(root, segs, trailing)
  {
    var rs := RootSegments(root);
    var tail := if trailing then [""] else [];
    var safe := Join(segs, '/') + (if trailing then "/" else "");
    RootRendered(root);
    SafePathPieces(segs, trailing);
    assert safe != "" by {
      JoinStartsWithFirst(segs, '/');
      assert Canonical(segs[0]);
    }
    JoinOntoRendered(rs, false, safe);
    assert Fold(rs, segs + tail, false) == rs + segs by {
      FoldAppend(rs, segs, tail, false);
      FoldCanonicalSegments(rs, segs, false);
    }
    assert Last(segs + tail) == "" <==> trailing by {
      assert Canonical(segs[|segs| - 1]);
    }
    RenderUnderRoot(root, segs, trailing);
  }

  /** Joining the safe path onto a normal root, when segments are kept. */
  lemma JoinSafeSegments(root: string, userPath: string)
    requires IsNormalRoot(root)
    requires Segments(userPath) != []
    ensures Join2(root, SafePath(userPath))
            == Place(root, Segments(userPath), Last(Split(userPath, '/')) == "")
  {
    SafePathShape(userPath);
    JoinRelative(root, Segments(userPath), Last(Split(userPath, '/')) == "");
  }

  /** What `resolvePath` returns, exactly: the root followed by the kept
      segments of the user path, with its trailing separator when one
      survives. In particular the `Invalid path` branch is never taken. */
  lemma ResolveExact(root: string, userPath: string)
    requires IsNormalRoot(root)
    ensures ResolvePath(root, userPath)
            == Success(Place(root, Segments(userPath), KeepsTrailingSlash(userPath)))
  {
    var full := Place(root, Segments(userPath), KeepsTrailingSlash(userPath));
    JoinSafe(root, userPath);
    PlaceExtendsRoot(root, Segments(userPath), KeepsTrailingSlash(userPath));
    ResolveWhenJoined(root, userPath, full);
  }

  lemma JoinSafe(root: string, userPath: string)
    requires IsNormalRoot(root)
    ensures Join2(root, SafePath(userPath))
            == Place(root, Segments(userPath), KeepsTrailingSlash(userPath))
  {
    if Segments(userPath) == [] {
      assert !KeepsTrailingSlash(userPath);
      assert Place(root, [], false) == root;
      JoinSafeEmpty(root, userPath);
    } else {
      assert KeepsTrailingSlash(userPath) == (Last(Split(userPath, '/')) == "");
      JoinSafeSegments(root, userPath);
    }
  }

  lemma ResolveWhenJoined(root: string, userPath: string, full: string)
    requires Join2(root, SafePath(userPath)) == full && root <= full
    ensures ResolvePath(root, userPath) == Success(full)
  {
  }

  lemma PlaceExtendsRoot(root: string, segs: seq<string>, trailingSlash: bool)
    ensures root <= Place(root, segs, trailingSlash)
  {
    var full := Place(root, segs, trailingSlash);
    assert full[..|root|] == root;
  }

  /** Containment, the security core: for every user path, `resolvePath`
      succeeds and its result is the root or lies inside it, on a separator
      boundary (never a sibling such as `workspace2`). */
  lemma ResolveContained(root: string, userPath: string)
    requires IsNormalRoot(root)
    ensures ResolvePath(root, userPath).Success?
    ensures Contained(root, ResolvePath(root, userPath).value)
    ensures var full := ResolvePath(root, userPath).value;
            full == root || root + "/" <= full
  {
    ResolveExact(root, userPath);
    var segs, trailingSlash := Segments(userPath), KeepsTrailingSlash(userPath);
    FoldStaysCanonical([], Split(userPath, '/'));
    assert Contained(root, Place(root, segs, trailingSlash));
    ContainedBoundary(root, Place(root, segs, trailingSlash));
  }

  /** Every contained path starts with the root on a separator boundary. */
  lemma ContainedBoundary(root: string, full: string)
    requires Contained(root, full)
    ensures full == root || root + "/" <= full
  {
    var segs, t :| AllCanonical(segs) && full == Place(root, segs, t);
  }

  /** Joining one canonical name onto an absolute directory gives a normal
      root ending in that name. */
  lemma JoinNameIsNormal(dirname: string, name: string)
    requires dirname != "" && dirname[0] == '/'
    requires Canonical(name)
    ensures IsNormalRoot(Join2(dirname, name))
    ensures Last(RootSegments(Join2(dirname, name))) == name
  {
    var root := Join2(dirname, name);
    var kept := Fold([], Split(dirname, '/'), false);
    var segs := kept + [name];
    assert AllCanonical(segs) by {
      FoldStaysCanonical([], Split(dirname, '/'));
    }
    assert root == Render(segs, false) by {
      JoinOntoAbsolute(dirname, name);
      SplitWithoutSeparator(name, '/');
      FoldCanonicalSegments(kept, [name], false);
    }
    RenderedIsNormal(segs);
  }

  /** The rendering of canonical segments, without a trailing separator,
      is a normal root with those segments. */
  lemma RenderedIsNormal(segs: seq<string>)
    requires segs != [] && AllCanonical(segs)
    ensures IsNormalRoot(Render(segs, false))
    ensures RootSegments(Render(segs, false)) == segs
  {
    var root := Render(segs, false);
    assert |root| >= 2 && root[0] == '/' by {
      JoinStartsWithFirst(segs, '/');
      assert Canonical(segs[0]);
    }
    assert root[1..] == Join(segs, '/');
    SplitJoin(segs, '/');
  }

  /** For an absolute `__dirname`, joining `workspace` onto it gives a
      normal root whose last segment is `workspace`. */
  lemma WorkspaceJoinIsNormal(dirname: string)
    ensures dirname != "" && dirname[0] == '/' ==>
              IsNormalRoot(Join2(dirname, "workspace")) && Last(RootSegments(Join2(dirname, "workspace"))) == "workspace"
  {
    if dirname != "" && dirname[0] == '/' {
      assert Canonical("workspace");
      JoinNameIsNormal(dirname, "workspace");
    }
  }

  /** A user path that keeps no segment resolves to the root itself. */
  lemma NothingKeptIsRoot(root: string, userPath: string)
    requires IsNormalRoot(root)
    requires Segments(userPath) == []
    ensures ResolvePath(root, userPath) == Success(root)
  {
    JoinSafeEmpty(root, userPath);
  }

  /** The empty path, `.` and `..` name the root itself. */
  lemma EmptyOrDotIsRoot(root: string, userPath: string)
    requires IsNormalRoot(root)
    requires userPath == "" || userPath == "." || userPath == ".."
    ensures ResolvePath(root, userPath) == Success(root)
  {
    SplitWithoutSeparator(userPath, '/');
    FoldSkips([], userPath, []);
    assert [userPath] + [] == [userPath];
    assert Segments(userPath) == [];
    NothingKeptIsRoot(root, userPath);
  }

  /** A `..` at the front of a user path is absorbed at the top. */
  lemma ClimbAbsorbed(rest: string)
    ensures Segments(".." + "/" + rest) == Segments(rest)
    ensures KeepsTrailingSlash(".." + "/" + rest) == KeepsTrailingSlash(rest)
  {
    var pieces := Split(rest, '/');
    SplitFirst("..", rest, ".." + "/" + rest, '/');
    FoldSkips([], "..", pieces);
    assert Last([".."] + pieces) == Last(pieces);
  }

  /** So climbing above the root changes nothing. */
  lemma ClimbResolves(root: string, rest: string)
    requires IsNormalRoot(root)
    ensures ResolvePath(root, ".." + "/" + rest) == ResolvePath(root, rest)
  {
    ClimbAbsorbed(rest);
    ResolveExact(root, ".." + "/" + rest);
    ResolveExact(root, rest);
  }

  /** A path of two canonical segments keeps both. */
  lemma TwoSegmentsKept(first: string, second: string)
    requires Canonical(first) && Canonical(second)
    ensures Segments(first + "/" + second) == [first, second]
    ensures !KeepsTrailingSlash(first + "/" + second)
  {
    SplitFirst(first, second, first + "/" + second, '/');
    SplitWithoutSeparator(second, '/');
    FoldCanonicalSegments([], [first, second], false);
  }

  /** A leading separator of a user path is dropped. */
  lemma LeadingSlashResolves(root: string, rest: string)
    requires IsNormalRoot(root)
    ensures ResolvePath(root, "/" + rest) == ResolvePath(root, rest)
  {
    var pieces := Split(rest, '/');
    SplitFirst("", rest, "/" + rest, '/');
    FoldSkips([], "", pieces);
    assert Last([""] + pieces) == Last(pieces);
    ResolveExact(root, "/" + rest);
    ResolveExact(root, rest);
  }

  /** The clamp: paths that climb above the root resolve to the root itself. */
  lemma ClampedToRoot(root: string, userPath: string)
    requires IsNormalRoot(root)
    requires userPath in {"", ".", "/", "..", "../../.."}
    ensures ResolvePath(root, userPath) == Success(root)
  {
    if userPath == "../../.." {
      var rest, last := userPath[3..], userPath[6..];
      assert userPath == ".." + "/" + rest && rest == ".." + "/" + last;
      SplitWithoutSeparator(last, '/');
      FoldSkips([], last, []);
      assert [last] + [] == [last];
      ClimbAbsorbed(last);
      ClimbAbsorbed(rest);
      NothingKeptIsRoot(root, userPath);
    } else if userPath == "/" {
      var rest := userPath[1..];
      assert userPath == "/" + rest;
      EmptyOrDotIsRoot(root, rest);
      LeadingSlashResolves(root, rest);
    } else {
      EmptyOrDotIsRoot(root, userPath);
    }
  }

  /** A classic traversal such as `../../etc/passwd` is clamped under the
      root, never to `/etc/passwd`. */
  lemma TraversalClamped(root: string, first: string, second: string)
    requires IsNormalRoot(root)
    requires Canonical(first) && Canonical(second)
    ensures ResolvePath(root, "../../" + first + "/" + second) == Success(root + "/" + first + "/" + second)
    ensures ResolvePath(root, "../../" + first + "/" + second).value != "/" + first + "/" + second
  {
    var kept := first + "/" + second;
    var rest := ".." + "/" + kept;
    var userPath := ".." + "/" + rest;
    assert "../../" + first + "/" + second == userPath;
    assert Segments(userPath) == [first, second] && !KeepsTrailingSlash(userPath) by {
      TwoSegmentsKept(first, second);
      ClimbAbsorbed(kept);
      ClimbAbsorbed(rest);
    }
    assert Place(root, [first, second], false) == root + "/" + first + "/" + second by {
      assert Join([first, second], '/') == kept;
    }
    ResolveExact(root, userPath);
    assert |root + "/" + first + "/" + second| != |"/" + first + "/" + second|;
  }

  /** A canonical name is its own safe path. */
  lemma CanonicalSafePath(name: string)
    requires Canonical(name)
    ensures Segments(name) == [name] && !KeepsTrailingSlash(name)
    ensures SafePath(name) == name
  {
    SplitWithoutSeparator(name, '/');
    FoldCanonicalSegments([], [name], false);
    SafePathShape(name);
  }

  /** The segments of `/a/../x`. */
  lemma ClimbBackPieces(a: string, x: string)
    requires Canonical(a) && Canonical(x)
    ensures Split("/" + a + "/.." + "/" + x, '/') == ["", a, "..", x]
  {
    var w := ".." + "/" + x;
    var v := a + "/" + w;
    SplitFirst("..", x, w, '/');
    SplitWithoutSeparator(x, '/');
    SplitFirst(a, w, v, '/');
    SplitFirst("", v, "" + "/" + v, '/');
    assert "/" + a + "/.." + "/" + x == "" + "/" + v;
  }

  /** Joining a name onto `/a/..` climbs back to `/`. */
  lemma ClimbBackJoin(a: string, x: string)
    requires Canonical(a) && Canonical(x)
    ensures Join2("/" + a + "/..", x) == "/" + x
  {
    var q := "/" + a + "/.." + "/" + x;
    ClimbBackPieces(a, x);
    NormalizeAbsolute(q);
    FoldSkips([], "", [a, ".."] + [x]);
    FoldPops([], a, [x]);
    FoldCanonicalSegments([], [x], false);
    assert [""] + ([a, ".."] + [x]) == ["", a, "..", x];
    assert [a, ".."] + [x] == [a, "..", x];
  }

  /** The containment check is not dead code in general: for a root that is
      not in normal form, such as `/a/..`, it fails. */
  lemma InvalidPathForUnnormalizedRoot(a: string, x: string)
    requires Canonical(a) && Canonical(x)
    ensures !IsNormalRoot("/" + a + "/..")
    ensures ResolvePath("/" + a + "/..", x) == Failure(InvalidPath)
  {
    var root := "/" + a + "/..";
    assert root[1..] == a + "/" + "..";
    SplitFirst(a, "..", root[1..], '/');
    SplitWithoutSeparator("..", '/');
    assert !Canonical(Split(root[1..], '/')[1]);
    CanonicalSafePath(x);
    ClimbBackJoin(a, x);
    var joined := "/" + x;
    if |root| <= |joined| {
      assert root[|a| + 1] == '/';
      assert joined[|a| + 1] == x[|a|];
    }
  }

  /** The upload destination `path.join(targetDir, originalname)` is not
      checked again; it stays inside the root when the file name has no `..`
      segment. */
  lemma UploadStaysInside(root: string, dir: string, fileName: string)
    requires IsNormalRoot(root)
    requires NoParentSegment(Split(fileName, '/'))
    ensures ResolvePath(root, dir).Success?
    ensures Contained(root, Join2(ResolvePath(root, dir).value, fileName))
  {
    ResolveExact(root, dir);
    SafePathShape(dir);
    JoinInside(root, Segments(dir), KeepsTrailingSlash(dir), fileName);
  }

  /** Joining a name without `..` onto a path inside the root stays inside. */
  lemma JoinInside(root: string, segs: seq<string>, trailingSlash: bool, name: string)
    requires IsNormalRoot(root) && AllCanonical(segs)
    requires NoParentSegment(Split(name, '/'))
    ensures Contained(root, Join2(Place(root, segs, trailingSlash), name))
  {
    var more, t := JoinedBelow(root, segs, trailingSlash, name);
  }

  /** The segments under the root that the join keeps. */
  lemma JoinedBelow(root: string, segs: seq<string>, trailingSlash: bool, name: string)
      returns (more: seq<string>, t: bool)
    requires IsNormalRoot(root) && AllCanonical(segs)
    requires NoParentSegment(Split(name, '/'))
    ensures AllCanonical(more)
    ensures Join2(Place(root, segs, trailingSlash), name) == Place(root, more, t)
  {
    if name == "" {
      more, t := segs, trailingSlash;
      JoinNothing(root, segs, trailingSlash);
    } else {
      more, t := JoinNameBelow(root, segs, trailingSlash, name);
    }
  }

  /** Joining the empty name normalizes a path inside the root, which is
      already normal. */
  lemma JoinNothing(root: string, segs: seq<string>, trailingSlash: bool)
    requires IsNormalRoot(root) && AllCanonical(segs)
    ensures Join2(Place(root, segs, trailingSlash), "") == Place(root, segs, trailingSlash)
  {
    var x := RootSegments(root) + segs;
    var inner := Place(root, segs, trailingSlash);
    assert inner == Render(x, trailingSlash) && x != [] && AllCanonical(x) by {
      RootRendered(root);
      RenderUnderRoot(root, segs, trailingSlash);
    }
    NormalizeRendered(x, trailingSlash);
  }

  lemma JoinNameBelow(root: string, segs: seq<string>, trailingSlash: bool, name: string)
      returns (more: seq<string>, t: bool)
    requires IsNormalRoot(root) && AllCanonical(segs)
    requires name != "" && NoParentSegment(Split(name, '/'))
    ensures AllCanonical(more)
    ensures Join2(Place(root, segs, trailingSlash), name) == Place(root, more, t)
  {
    var rs := RootSegments(root);
    var x := rs + segs;
    var inner := Place(root, segs, trailingSlash);
    assert inner == Render(x, trailingSlash) && x != [] && AllCanonical(x) by {
      RootRendered(root);
      RenderUnderRoot(root, segs, trailingSlash);
    }
    t := Last(Split(name, '/')) == "";
    var y := JoinNameOntoRendered(x, trailingSlash, name);
    more := y[|rs|..];
    assert y == rs + more;
    assert AllCanonical(more) by {
      forall i | 0 <= i < |more| ensures Canonical(more[i]) {
        assert more[i] == y[|rs| + i];
      }
    }
    assert Render(y, t) == Place(root, more, t) by {
      RenderUnderRoot(root, more, t);
    }
  }

  /** Joining a name without `..` onto a rendered path only adds segments. */
  lemma JoinNameOntoRendered(x: seq<string>, trailingSlash: bool, name: string) returns (y: seq<string>)
    requires x != [] && AllCanonical(x)
    requires name != "" && NoParentSegment(Split(name, '/'))
    ensures x <= y && AllCanonical(y)
    ensures Join2(Render(x, trailingSlash), name) == Render(y, Last(Split(name, '/')) == "")
  {
    var pieces := Split(name, '/');
    y := Fold(x, pieces, false);
    JoinOntoRendered(x, trailingSlash, name);
    FoldWithoutParentGrows(x, pieces, false);
    FoldStaysCanonical(x, pieces);
  }

  /** Joining one canonical name onto a contained path adds exactly that
      segment and drops the trailing separator. */
  lemma JoinCanonicalName(root: string, segs: seq<string>, trailingSlash: bool, name: string)
    requires IsNormalRoot(root) && AllCanonical(segs) && Canonical(name)
    ensures Join2(Place(root, segs, trailingSlash), name) == Place(root, segs + [name], false)
  {
    var rs := RootSegments(root);
    assert Place(root, segs, trailingSlash) == Render(rs + segs, trailingSlash) && rs + segs != [] && AllCanonical(rs + segs) by {
      RootRendered(root);
      RenderUnderRoot(root, segs, trailingSlash);
    }
    assert Split(name, '/') == [name] by {
      SplitWithoutSeparator(name, '/');
    }
    assert Fold(rs + segs, [name], false) == rs + segs + [name];
    assert Join2(Render(rs + segs, trailingSlash), name) == Render(rs + segs + [name], false) by {
      JoinOntoRendered(rs + segs, trailingSlash, name);
    }
    assert rs + segs + [name] == rs + (segs + [name]);
    assert Render(rs + (segs + [name]), false) == Place(root, segs + [name], false) by {
      RenderUnderRoot(root, segs + [name], false);
    }
  }

  /** The kept segments of a rendering ending in `last`: a prefix shared
      by every such rendering, then `last`. */
  lemma RenderLast(init: seq<string>, last: string)
    ensures Render(init + [last], false)
            == (if init == [] then "/" else "/" + Join(init, '/') + "/") + last
  {
    if init != [] {
      JoinAppend(init, [last], '/');
    } else {
      assert init + [last] == [last];
    }
  }

  /** Joining `../name` onto a normal root replaces its last segment. */
  lemma JoinParentName(root: string, name: string)
    requires IsNormalRoot(root) && Canonical(name)
    ensures var rs := RootSegments(root);
            Join2(root, ".." + "/" + name) == Render(rs[..|rs| - 1] + [name], false)
  {
    var rs := RootSegments(root);
    var init := rs[..|rs| - 1];
    var b := ".." + "/" + name;
    RootRendered(root);
    SplitFirst("..", name, b, '/');
    SplitWithoutSeparator(name, '/');
    assert Split(b, '/') == ["..", name];
    JoinOntoRendered(rs, false, b);
    assert Canonical(Last(rs));
    assert Step(rs, "..", false) == init;
    assert Fold(rs, ["..", name], false) == Fold(init, [name], false);
    FoldCanonicalSegments(init, [name], false);
  }

  /** Two paths that differ only in their last segment: one is inside the
      other exactly when the segments are equal. */
  lemma SiblingSegment(prefix: string, last: string, name: string)
    requires '/' !in name
    ensures prefix + name == prefix + last <==> name == last
    ensures !(prefix + last + "/" <= prefix + name)
  {
    var full, inner := prefix + name, prefix + last + "/";
    if full == prefix + last {
      assert name == full[|prefix|..];
    }
    if |inner| <= |full| {
      assert inner[|inner| - 1] == '/';
      assert full[|inner| - 1] == name[|last|];
    }
  }

  /** Replacing the root's last segment leaves the root, unless the new
      segment is the same. */
  lemma SiblingOfRoot(root: string, name: string)
    requires IsNormalRoot(root) && Canonical(name)
    ensures var rs := RootSegments(root);
            Contained(root, Render(rs[..|rs| - 1] + [name], false)) <==> name == Last(rs)
  {
    var rs := RootSegments(root);
    var init, last := rs[..|rs| - 1], Last(rs);
    var prefix := if init == [] then "/" else "/" + Join(init, '/') + "/";
    var full := Render(init + [name], false);
    RootRendered(root);
    assert rs == init + [last];
    RenderLast(init, last);
    RenderLast(init, name);
    assert root == prefix + last && full == prefix + name;
    SiblingSegment(prefix, last, name);
    if name == last {
      assert Place(root, [], false) == root;
      assert Contained(root, full);
    }
    if Contained(root, full) {
      ContainedBoundary(root, full);
    }
  }

  /** The upload destination is not checked again: a file name `../name`
      lands beside the root, outside it, unless `name` is the root's own
      last segment. */
  lemma UploadParentEscapes(root: string, name: string)
    requires IsNormalRoot(root) && Canonical(name)
    ensures ResolvePath(root, "") == Success(root)
    ensures var rs := RootSegments(root);
            Join2(root, ".." + "/" + name) == Render(rs[..|rs| - 1] + [name], false)
    ensures Contained(root, Join2(root, ".." + "/" + name)) <==> name == Last(RootSegments(root))
  {
    EmptyOrDotIsRoot(root, "");
    JoinParentName(root, name);
    SiblingOfRoot(root, name);
  }
}
