/** Node's POSIX `path.normalize` and `path.join`, on which `resolvePath`
    rests. A path is read as its `/`-separated segments; normalization walks
    them left to right over a stack: empty and `.` segments are dropped, `..`
    pops the last kept segment, and a `..` with nothing to pop is kept for a
    relative path and absorbed for an absolute one. */
module PosixPath {
  import opened Strings

  /** A segment that survives the normalization of an absolute path. */
  predicate Canonical(seg: string) {
    seg != "" && seg != "." && seg != ".." && '/' !in seg
  }

  predicate AllCanonical(segs: seq<string>) {
    forall i :: 0 <= i < |segs| ==> Canonical(segs[i])
  }

  /** No segment is `..`. */
  predicate NoParentSegment(segs: seq<string>) {
    forall i :: 0 <= i < |segs| ==> segs[i] != ".."
  }

  /** One step of the normalization over the stack of kept segments. */
  function Step(stack: seq<string>, seg: string, allowAboveRoot: bool): seq<string> {
    if seg == "" || seg == "." then stack
    else if seg == ".." then
      if |stack| > 0 && Last(stack) != ".." then stack[..|stack| - 1]
      else if allowAboveRoot then stack + [".."]
      else stack
    else stack + [seg]
  }

  /** The normalization of a whole segment list, starting from `stack`. */
  function Fold(stack: seq<string>, segs: seq<string>, allowAboveRoot: bool): seq<string>
    decreases |segs|
  {
    if segs == [] then stack
    else Fold(Step(stack, segs[0], allowAboveRoot), segs[1..], allowAboveRoot)
  }

  /** How `path.normalize` prints the kept segments of an absolute path:
      the trailing separator survives only when some segment is kept. */
  function Render(segs: seq<string>, trailingSlash: bool): string {
    if segs == [] then "/"
    else "/" + Join(segs, '/') + (if trailingSlash then "/" else "")
  }

  /** `path.normalize(p)` for POSIX. */
  function Normalize(p: string): (r: string)
    ensures p == "" ==> r == "."
    ensures p != "" && p[0] == '/' ==> r != "" && r[0] == '/'
  {
    if p == "" then "."
    else
      var isAbsolute := p[0] == '/';
      var trailingSlash := p[|p| - 1] == '/';
      var segs := Fold([], Split(p, '/'), !isAbsolute);
      if segs == [] then
        if isAbsolute then "/" else if trailingSlash then "./" else "."
      else
        var body := Join(segs, '/') + (if trailingSlash then "/" else "");
        if isAbsolute then "/" + body else body
  }

  /** `path.join(a, b)`: the non-empty arguments joined by `/`, then normalized. */
  function Join2(a: string, b: string): (r: string)
    ensures a == "" && b == "" ==> r == "."
    ensures (a != "" && a[0] == '/') || (a == "" && b != "" && b[0] == '/') ==> r != "" && r[0] == '/'
  {
    if a == "" && b == "" then "."
    else if a == "" then Normalize(b)
    else if b == "" then Normalize(a)
    else Normalize(a + "/" + b)
  }

  /** Folding a concatenation is folding its halves in turn. */
  lemma {:induction false} FoldAppend(stack: seq<string>, a: seq<string>, b: seq<string>, allowAboveRoot: bool)
    ensures Fold(stack, a + b, allowAboveRoot) == Fold(Fold(stack, a, allowAboveRoot), b, allowAboveRoot)
    decreases |a|
  {
    if a == [] {
      assert a + b == b;
    } else {
      assert (a + b)[0] == a[0] && (a + b)[1..] == a[1..] + b;
      FoldAppend(Step(stack, a[0], allowAboveRoot), a[1..], b, allowAboveRoot);
    }
  }

  /** Canonical segments are pushed unchanged. */
  lemma {:induction false} FoldCanonicalSegments(stack: seq<string>, segs: seq<string>, allowAboveRoot: bool)
    requires AllCanonical(segs)
    ensures Fold(stack, segs, allowAboveRoot) == stack + segs
    decreases |segs|
  {
    if segs != [] {
      FoldCanonicalSegments(stack + [segs[0]], segs[1..], allowAboveRoot);
      assert stack + [segs[0]] + segs[1..] == stack + segs;
    }
  }

  /** At the top of an absolute path `..` is absorbed, and empty and `.`
      segments are dropped anywhere. */
  lemma FoldSkips(stack: seq<string>, seg: string, segs: seq<string>)
    requires seg == "" || seg == "." || (seg == ".." && stack == [])
    ensures Fold(stack, [seg] + segs, false) == Fold(stack, segs, false)
  {
    assert ([seg] + segs)[1..] == segs;
  }

  /** `..` after a kept segment pops it. */
  lemma FoldPops(stack: seq<string>, seg: string, segs: seq<string>)
    requires Canonical(seg)
    ensures Fold(stack, [seg, ".."] + segs, false) == Fold(stack, segs, false)
  {
    assert ([seg, ".."] + segs)[1..] == [".."] + segs;
    assert ([".."] + segs)[1..] == segs;
    assert (stack + [seg])[..|stack|] == stack;
  }

  /** For an absolute path the stack only ever holds canonical segments:
      no `..` can be left over. */
  lemma {:induction false} FoldStaysCanonical(stack: seq<string>, segs: seq<string>)
    requires AllCanonical(stack)
    requires forall i :: 0 <= i < |segs| ==> '/' !in segs[i]
    ensures AllCanonical(Fold(stack, segs, false))
    decreases |segs|
  {
    if segs != [] {
      FoldStaysCanonical(Step(stack, segs[0], false), segs[1..]);
    }
  }

  /** Without `..` segments nothing is popped: the stack only grows. */
  lemma {:induction false} FoldWithoutParentGrows(stack: seq<string>, segs: seq<string>, allowAboveRoot: bool)
    requires NoParentSegment(segs)
    ensures stack <= Fold(stack, segs, allowAboveRoot)
    decreases |segs|
  {
    if segs != [] {
      FoldWithoutParentGrows(Step(stack, segs[0], allowAboveRoot), segs[1..], allowAboveRoot);
    }
  }

  /** The segments and the trailing separator of a rendered path. */
  lemma SplitRender(segs: seq<string>, trailingSlash: bool)
    requires segs != [] && AllCanonical(segs)
    ensures Split(Render(segs, trailingSlash), '/')
            == [""] + segs + (if trailingSlash then [""] else [])
  {
    SplitJoin(segs, '/');
    SplitAround("", Join(segs, '/'), '/');
    assert "" + ['/'] + Join(segs, '/') == "/" + Join(segs, '/');
    if trailingSlash {
      SplitAround("/" + Join(segs, '/'), "", '/');
      assert "/" + Join(segs, '/') + ['/'] + "" == Render(segs, true);
    } else {
      assert Render(segs, false) == "/" + Join(segs, '/');
    }
  }

  /** `path.normalize` of an absolute path is determined by its segments and
      by whether its last segment is empty (a trailing separator). */
  lemma NormalizeAbsolute(p: string)
    requires p != [] && p[0] == '/'
    ensures Normalize(p) == Render(Fold([], Split(p, '/'), false), Last(Split(p, '/')) == "")
  {
    EndsWithSeparator(p, '/');
  }

  /** The pieces of a rendered path fold back to its segments. */
  lemma FoldRenderedPieces(segs: seq<string>, trailingSlash: bool)
    requires AllCanonical(segs)
    ensures Fold([], [""] + segs + (if trailingSlash then [""] else []), false) == segs
  {
    var tail := if trailingSlash then [""] else [];
    assert Fold([], [""], false) == [];
    FoldAppend([], [""], segs, false);
    FoldCanonicalSegments([], segs, false);
    assert [] + segs == segs;
    FoldAppend([], [""] + segs, tail, false);
    assert Fold(segs, tail, false) == segs;
  }

  /** The last piece of a rendered path is empty exactly when it has a
      trailing separator. */
  lemma LastRenderedPiece(segs: seq<string>, trailingSlash: bool)
    requires segs != [] && AllCanonical(segs)
    ensures var pieces := [""] + segs + (if trailingSlash then [""] else []);
            (Last(pieces) == "") == trailingSlash
  {
    assert Canonical(segs[|segs| - 1]);
  }

  /** Normalizing an already rendered path changes nothing (idempotence). */
  lemma NormalizeRendered(segs: seq<string>, trailingSlash: bool)
    requires segs != [] && AllCanonical(segs)
    ensures Normalize(Render(segs, trailingSlash)) == Render(segs, trailingSlash)
  {
    var p := Render(segs, trailingSlash);
    SplitRender(segs, trailingSlash);
    NormalizeAbsolute(p);
    FoldRenderedPieces(segs, trailingSlash);
    LastRenderedPiece(segs, trailingSlash);
  }

  /** `path.join` onto an absolute path: the segments of the second
      argument are folded onto those kept from the first. */
  lemma JoinOntoAbsolute(a: string, b: string)
    requires a != "" && a[0] == '/' && b != ""
    ensures Join2(a, b)
            == Render(Fold(Fold([], Split(a, '/'), false), Split(b, '/'), false), Last(Split(b, '/')) == "")
  {
    var q := a + "/" + b;
    var aps, bs := Split(a, '/'), Split(b, '/');
    var pieces := Split(q, '/');
    assert pieces == aps + bs by {
      assert q == a + ['/'] + b;
      SplitAround(a, b, '/');
    }
    assert Fold([], pieces, false) == Fold(Fold([], aps, false), bs, false) by {
      FoldAppend([], aps, bs, false);
    }
    assert Last(pieces) == Last(bs);
    assert Join2(a, b) == Render(Fold([], pieces, false), Last(pieces) == "") by {
      assert q[0] == '/';
      NormalizeAbsolute(q);
    }
  }

  /** `path.join` onto a rendered absolute path: the segments of the second
      argument are folded onto the stack of the first. */
  lemma JoinOntoRendered(segs: seq<string>, trailingSlash: bool, b: string)
    requires segs != [] && AllCanonical(segs)
    requires b != ""
    ensures Join2(Render(segs, trailingSlash), b)
            == Render(Fold(segs, Split(b, '/'), false), Last(Split(b, '/')) == "")
  {
    var a := Render(segs, trailingSlash);
    assert a[0] == '/';
    JoinOntoAbsolute(a, b);
    SplitRender(segs, trailingSlash);
    FoldRenderedPieces(segs, trailingSlash);
  }
}
