/** The JavaScript string operations the server and the client rely on:
    `s.split(sep)` for a one-character separator, `parts.join(sep)`,
    `s.lastIndexOf(c)` and `parts.pop()` on a split result. */
module Strings {

  /** `s.split(sep)`: the maximal pieces of `s` between occurrences of `sep`.
      Splitting never yields an empty array, and no piece contains `sep`. */
  function Split(s: string, sep: char): (parts: seq<string>)
    ensures |parts| >= 1
    ensures forall i :: 0 <= i < |parts| ==> sep !in parts[i]
    decreases |s|
  {
    if s == [] then [""]
    else
      var rest := Split(s[1..], sep);
      if s[0] == sep then [""] + rest
      else [[s[0]] + rest[0]] + rest[1..]
  }

  /** `parts.join(sep)`. */
  function Join(parts: seq<string>, sep: char): string
    decreases |parts|
  {
    if |parts| == 0 then ""
    else if |parts| == 1 then parts[0]
    else parts[0] + [sep] + Join(parts[1..], sep)
  }

  /** The last element of a non-empty array, as `parts.pop()` returns it. */
  function Last(parts: seq<string>): string
    requires |parts| > 0
  {
    parts[|parts| - 1]
  }

  /** `s.lastIndexOf(c)`: the index of the last occurrence of `c`, or -1. */
  function LastIndexOf(s: string, c: char): (k: int)
    ensures -1 <= k < |s|
    ensures k == -1 <==> c !in s
    ensures k >= 0 ==> s[k] == c && forall j :: k < j < |s| ==> s[j] != c
    decreases |s|
  {
    if s == [] then -1
    else if s[|s| - 1] == c then |s| - 1
    else LastIndexOf(s[..|s| - 1], c)
  }

  /** A string without the separator splits into itself alone. */
  lemma {:induction false} SplitWithoutSeparator(s: string, sep: char)
    requires sep !in s
    ensures Split(s, sep) == [s]
    decreases |s|
  {
    if s != [] {
      SplitWithoutSeparator(s[1..], sep);
      assert [s[0]] + s[1..] == s;
    }
  }

  /** Splitting distributes over a separator occurrence. */
  lemma {:induction false} SplitAround(a: string, b: string, sep: char)
    ensures Split(a + [sep] + b, sep) == Split(a, sep) + Split(b, sep)
    decreases |a|
  {
    var s := a + [sep] + b;
    if a == [] {
      assert s[0] == sep && s[1..] == b;
    } else {
      assert s[0] == a[0] && s[1..] == a[1..] + [sep] + b;
      SplitAround(a[1..], b, sep);
    }
  }

  /** Splitting off a first piece that holds no separator. */
  lemma SplitFirst(a: string, b: string, s: string, sep: char)
    requires sep !in a && s == a + [sep] + b
    ensures Split(s, sep) == [a] + Split(b, sep)
  {
    SplitWithoutSeparator(a, sep);
    SplitAround(a, b, sep);
  }

  /** Joining what was split restores the string. */
  lemma {:induction false} JoinSplit(s: string, sep: char)
    ensures Join(Split(s, sep), sep) == s
    decreases |s|
  {
    if s != [] {
      JoinSplit(s[1..], sep);
      var rest := Split(s[1..], sep);
      if s[0] == sep {
        assert Split(s, sep) == [""] + rest;
        assert ([""] + rest)[1..] == rest;
      } else {
        var parts := Split(s, sep);
        assert parts == [[s[0]] + rest[0]] + rest[1..];
        if |rest| == 1 {
          assert s == [s[0]] + rest[0];
        } else {
          assert parts[1..] == rest[1..];
          assert Join(rest, sep) == rest[0] + [sep] + Join(rest[1..], sep);
        }
      }
    }
  }

  /** Splitting what was joined gives back the pieces, when no piece holds
      the separator. */
  lemma {:induction false} SplitJoin(parts: seq<string>, sep: char)
    requires |parts| >= 1
    requires forall i :: 0 <= i < |parts| ==> sep !in parts[i]
    ensures Split(Join(parts, sep), sep) == parts
    decreases |parts|
  {
    if |parts| == 1 {
      SplitWithoutSeparator(parts[0], sep);
    } else {
      SplitJoin(parts[1..], sep);
      SplitWithoutSeparator(parts[0], sep);
      SplitAround(parts[0], Join(parts[1..], sep), sep);
      assert [parts[0]] + parts[1..] == parts;
    }
  }

  /** Joining two non-empty lists puts one separator between their joins. */
  lemma {:induction false} JoinAppend(a: seq<string>, b: seq<string>, sep: char)
    requires |a| >= 1 && |b| >= 1
    ensures Join(a + b, sep) == Join(a, sep) + [sep] + Join(b, sep)
    decreases |a|
  {
    if |a| > 1 {
      JoinAppend(a[1..], b, sep);
      assert (a + b)[1..] == a[1..] + b;
    } else {
      assert (a + b)[1..] == b;
    }
  }

  /** The last piece of a split is the text after the last separator. */
  lemma {:induction false} LastPieceAfterLastSeparator(s: string, sep: char)
    ensures Last(Split(s, sep)) == s[LastIndexOf(s, sep) + 1..]
  {
    var k := LastIndexOf(s, sep);
    if k == -1 {
      SplitWithoutSeparator(s, sep);
      assert s[0..] == s;
    } else {
      var a, b := s[..k], s[k + 1..];
      assert sep !in b by {
        forall j | 0 <= j < |b| ensures b[j] != sep {
          assert b[j] == s[k + 1 + j];
        }
      }
      assert s == a + [sep] + b;
      SplitAround(a, b, sep);
      SplitWithoutSeparator(b, sep);
      var parts := Split(a, sep) + Split(b, sep);
      assert Last(parts) == b;
    }
  }

  /** `s.split(sep).pop()`: the text after the last separator, or all of
      `s` without one. */
  function LastPiece(s: string, sep: char): (piece: string)
    ensures sep !in piece
    ensures piece == s[LastIndexOf(s, sep) + 1..]
  {
    LastPieceAfterLastSeparator(s, sep);
    Last(Split(s, sep))
  }

  /** A non-empty string ends with the separator exactly when its last piece
      is empty. */
  lemma EndsWithSeparator(s: string, sep: char)
    requires s != []
    ensures s[|s| - 1] == sep <==> Last(Split(s, sep)) == ""
  {
    LastPieceAfterLastSeparator(s, sep);
  }
}
