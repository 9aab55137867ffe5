/**
  Workspace paths as lease keys: lexical cleaning and plain string prefixes, on a
  system whose path separator is '/'.
 */
module PathKeySpace {
  import opened Wrappers
  import opened Text
  import opened KeySpaces

  /** One pass over the segments of a path, `out` being the segments kept so far. */
  function Reduce(rooted: bool, segments: seq<string>, out: seq<string>): seq<string> {
    if segments == [] then out
    else
      var s, rest := segments[0], segments[1..];
      if s == "" || s == "." then Reduce(rooted, rest, out)
      else if s != ".." then Reduce(rooted, rest, out + [s])
      else if out != [] && out[|out| - 1] != ".." then Reduce(rooted, rest, out[..|out| - 1])
      else if rooted then Reduce(rooted, rest, out)
      else Reduce(rooted, rest, out + [s])
  }

  function Render(rooted: bool, out: seq<string>): string {
    if rooted then "/" + Join(out, '/')
    else if out == [] then "."
    else Join(out, '/')
  }

  /** `filepath.Clean`. */
  function Clean(path: string): string {
    if path == "" then "."
    else Render(path[0] == '/', Reduce(path[0] == '/', Split(path, '/'), []))
  }

  function TrimPrefix(s: string, prefix: string): string {
    if prefix <= s then s[|prefix|..] else s
  }

  function Normalize(key: string): Result<string, string> {
    var clean := TrimPrefix(Clean(TrimSpace(key)), "./");
    if clean == "" then Err("lease: path is required") else Ok(clean)
  }

  function Covers(prefix: string, key: string): bool {
    match (Normalize(prefix), Normalize(key))
    case (Ok(p), Ok(k)) => p <= k
    case _ => false
  }

  const SPACE := KeySpace(Normalize, Covers)

  /** The shape every cleaned path has: no empty or "." segment, ".." only as a leading run of a relative path. */
  ghost predicate Canonical(rooted: bool, out: seq<string>) {
    && (forall s <- out :: s != "" && s != "." && '/' !in s)
    && (rooted ==> ".." !in out)
    && (forall i, j :: 0 <= i < j < |out| && out[j] == ".." ==> out[i] == "..")
  }

  lemma FrontIsCanonical(rooted: bool, out: seq<string>)
    requires Canonical(rooted, out) && out != []
    ensures Canonical(rooted, out[..|out| - 1])
  {
    var front := out[..|out| - 1];
    forall s | s in front ensures s in out && s != "" && s != "." && '/' !in s {
      var i :| 0 <= i < |front| && front[i] == s;
      assert out[i] == s && s in out;
    }
  }

  lemma {:induction false} ReduceIsCanonical(rooted: bool, segments: seq<string>, out: seq<string>)
    requires Canonical(rooted, out) && forall s <- segments :: '/' !in s
    ensures Canonical(rooted, Reduce(rooted, segments, out))
  {
    if segments != [] {
      var s, rest := segments[0], segments[1..];
      if s == "" || s == "." {
        ReduceIsCanonical(rooted, rest, out);
      } else if s != ".." {
        ReduceIsCanonical(rooted, rest, out + [s]);
      } else if out != [] && out[|out| - 1] != ".." {
        FrontIsCanonical(rooted, out);
        ReduceIsCanonical(rooted, rest, out[..|out| - 1]);
      } else if rooted {
        ReduceIsCanonical(rooted, rest, out);
      } else {
        ReduceIsCanonical(rooted, rest, out + [s]);
      }
    }
  }

  lemma {:induction false} ReduceFixesCanonical(rooted: bool, segments: seq<string>, out: seq<string>)
    requires Canonical(rooted, out + segments)
    ensures Reduce(rooted, segments, out) == out + segments
  {
    if segments != [] {
      var whole := out + segments;
      assert whole[|out|] == segments[0] && segments[0] in whole;
      if out != [] {
        assert whole[|out| - 1] == out[|out| - 1];
      }
      assert out + [segments[0]] + segments[1..] == whole;
      ReduceFixesCanonical(rooted, segments[1..], out + [segments[0]]);
    }
  }

  lemma ReduceSkipsEmpty(rooted: bool, segments: seq<string>)
    ensures Reduce(rooted, [""] + segments, []) == Reduce(rooted, segments, [])
  {
    assert ([""] + segments)[1..] == segments;
  }

  /** Rendering a canonical path and splitting it again loses nothing. */
  lemma RenderRoundTrip(rooted: bool, out: seq<string>)
    requires Canonical(rooted, out)
    ensures Render(rooted, out) != "" && (Render(rooted, out)[0] == '/' <==> rooted)
    ensures Reduce(rooted, Split(Render(rooted, out), '/'), []) == out
  {
    var text := Render(rooted, out);
    if out != [] {
      assert out[0] in out;
      SplitOfJoin(out, '/');
      ReduceFixesCanonical(rooted, out, []);
      assert [] + out == out;
    }
    if rooted {
      assert text[1..] == Join(out, '/');
      ReduceSkipsEmpty(rooted, Split(Join(out, '/'), '/'));
    } else if out == [] {
      SplitFirst(".", "", '/');
    } else {
      assert Join(out, '/')[0] == out[0][0];
    }
  }

  /** A path that is already clean stays as it is. */
  lemma CleanIdempotent(path: string)
    ensures Clean(path) != "" && Clean(Clean(path)) == Clean(path)
  {
    if path == "" {
      RenderRoundTrip(false, []);
    } else {
      var rooted := path[0] == '/';
      ReduceIsCanonical(rooted, Split(path, '/'), []);
      RenderRoundTrip(rooted, Reduce(rooted, Split(path, '/'), []));
    }
  }

  // ----- Cleaning keeps the meaning of a path -----

  /** One segment taken from a directory, given as the names that lead to it from the root. */
  function Enter(dir: seq<string>, segment: string): seq<string> {
    if segment == "" || segment == "." then dir
    else if segment == ".." then (if dir == [] then [] else dir[..|dir| - 1])
    else dir + [segment]
  }

  function Walk(dir: seq<string>, segments: seq<string>): seq<string>
    decreases |segments|
  {
    if segments == [] then dir else Walk(Enter(dir, segments[0]), segments[1..])
  }

  /** Where a path leads from a directory; a rooted path leads there from everywhere. */
  function Resolve(dir: seq<string>, path: string): seq<string> {
    Walk(if path != "" && path[0] == '/' then [] else dir, Split(path, '/'))
  }

  lemma {:induction false} WalkOn(dir: seq<string>, segments: seq<string>, last: string)
    ensures Walk(dir, segments + [last]) == Enter(Walk(dir, segments), last)
    decreases |segments|
  {
    var all := segments + [last];
    if segments == [] {
      assert all[1..] == [];
    } else {
      assert all[1..] == segments[1..] + [last];
      WalkOn(Enter(dir, segments[0]), segments[1..], last);
    }
  }

  lemma {:induction false} ReduceKeepsMeaning(rooted: bool, segments: seq<string>, out: seq<string>, dir: seq<string>)
    requires Canonical(rooted, out) && (forall s <- segments :: '/' !in s) && (rooted ==> dir == [])
    ensures Walk(dir, Reduce(rooted, segments, out)) == Walk(Walk(dir, out), segments)
  {
    if segments != [] {
      var s, rest := segments[0], segments[1..];
      assert out != [] ==> out[|out| - 1] in out;
      if s == "" || s == "." {
        ReduceKeepsMeaning(rooted, rest, out, dir);
      } else if s != ".." {
        WalkOn(dir, out, s);
        ReduceKeepsMeaning(rooted, rest, out + [s], dir);
      } else if out != [] && out[|out| - 1] != ".." {
        var front, last := out[..|out| - 1], out[|out| - 1];
        assert out == front + [last] && last in out;
        WalkOn(dir, front, last);
        FrontIsCanonical(rooted, out);
        ReduceKeepsMeaning(rooted, rest, front, dir);
      } else if rooted {
        ReduceKeepsMeaning(rooted, rest, out, dir);
      } else {
        WalkOn(dir, out, s);
        ReduceKeepsMeaning(rooted, rest, out + [s], dir);
      }
    }
  }

  lemma RenderMeans(rooted: bool, out: seq<string>, dir: seq<string>)
    requires Canonical(rooted, out)
    ensures Resolve(dir, Render(rooted, out)) == Walk(if rooted then [] else dir, out)
  {
    var text := Render(rooted, out);
    RenderRoundTrip(rooted, out);
    if out != [] {
      SplitOfJoin(out, '/');
    }
    if rooted {
      var rest := Split(Join(out, '/'), '/');
      assert text[1..] == Join(out, '/') && Split(text, '/') == [""] + rest;
      assert ([""] + rest)[1..] == rest;
      assert Walk([], [""] + rest) == Walk([], rest);
      assert out == [] ==> rest == [""] && rest[1..] == [];
    } else if out == [] {
      SplitFirst(".", "", '/');
    }
  }

  /** From every directory the cleaned path leads where the path itself leads. */
  lemma CleanKeepsMeaning(path: string, dir: seq<string>)
    ensures Resolve(dir, Clean(path)) == Resolve(dir, path)
  {
    if path == "" {
      SplitFirst(".", "", '/');
    } else {
      var rooted := path[0] == '/';
      var from := if rooted then [] else dir;
      var out := Reduce(rooted, Split(path, '/'), []);
      ReduceIsCanonical(rooted, Split(path, '/'), []);
      RenderMeans(rooted, out, dir);
      ReduceKeepsMeaning(rooted, Split(path, '/'), [], from);
    }
  }

  /** A clean path never begins with "./", so there is no such prefix left to trim. */
  lemma CleanHasNoDotSlash(path: string)
    ensures !("./" <= Clean(path))
  {
    if path != "" {
      var rooted := path[0] == '/';
      var out := Reduce(rooted, Split(path, '/'), []);
      var clean := Clean(path);
      ReduceIsCanonical(rooted, Split(path, '/'), []);
      if !rooted && out != [] && |clean| > 1 && clean[0] == '.' && clean[1] == '/' {
        SplitFirst(".", clean[2..], '/');
        assert clean == "." + ['/'] + clean[2..];
        assert out[0] in out;
        SplitOfJoin(out, '/');
      }
    }
  }

  /**
    `Normalize` accepts every string: cleaning maps the empty path to ".", so its
    "path is required" branch is never taken.
   */
  lemma NormalizeIsTotal(key: string)
    ensures Normalize(key) == Ok(Clean(TrimSpace(key)))
  {
    CleanIdempotent(TrimSpace(key));
    CleanHasNoDotSlash(TrimSpace(key));
  }

  /** `Covers` is the prefix order of the cleaned texts, with no separator boundary: "lanes/a" covers "lanes/ab". */
  lemma CoversIsPrefixOfClean(prefix: string, key: string)
    ensures Covers(prefix, key) <==> Clean(TrimSpace(prefix)) <= Clean(TrimSpace(key))
  {
    NormalizeIsTotal(prefix);
    NormalizeIsTotal(key);
  }

  /** Workspace paths satisfy what exclusion needs, on every string, clean or not. */
  lemma SpaceIsLawful()
    ensures SPACE.Lawful()
  {
    forall k: string ensures Covers(k, k) {
      CoversIsPrefixOfClean(k, k);
    }
    forall p: string, q: string, k: string | Covers(p, k) && Covers(q, k) ensures Covers(p, q) || Covers(q, p) {
      CoversIsPrefixOfClean(p, k);
      CoversIsPrefixOfClean(q, k);
      CoversIsPrefixOfClean(p, q);
      CoversIsPrefixOfClean(q, p);
      PrefixesOfOneString(Clean(TrimSpace(p)), Clean(TrimSpace(q)), Clean(TrimSpace(k)));
    }
  }

  // ----- When a normalized key is a fixed point -----

  /** A name that no path can contain, to tell where a walk began. */
  const MARK: string := "/"

  predicate Rooted(path: string) {
    path != "" && path[0] == '/'
  }

  /** The relative path leads out of the directory that it starts from. */
  predicate Climbs(path: string) {
    var end := Resolve([MARK], path);
    end == [] || end[0] != MARK
  }

  /**
    The condition on a key: the last name that it leads to does not end in white space, and
    the first does not begin with any, unless it comes after a "/" or a "..".
   */
  predicate EdgesAreClean(key: string) {
    var path := TrimSpace(key);
    var names := Resolve([], path);
    names != [] ==>
      && EndsClean(names[|names| - 1])
      && (Rooted(path) || Climbs(path) || BeginsClean(names[0]))
  }

  predicate BeginsClean(s: string) {
    s != "" ==> !IsSpace(s[0])
  }

  predicate EndsClean(s: string) {
    s != "" ==> !IsSpace(s[|s| - 1])
  }

  /** Names without ".." are simply added to where the walk stands. */
  lemma {:induction false} WalkAddsNames(dir: seq<string>, out: seq<string>)
    requires Canonical(false, out) && (out != [] ==> out[0] != "..")
    ensures Walk(dir, out) == dir + out
  {
    if out != [] {
      var front, last := out[..|out| - 1], out[|out| - 1];
      assert out == front + [last] && last in out;
      FrontIsCanonical(false, out);
      WalkAddsNames(dir, front);
      WalkOn(dir, front, last);
    }
  }

  /** Behind a ".." only the names are left of a walk from the root or from one directory below it. */
  lemma {:induction false} WalkKeepsNames(dir: seq<string>, out: seq<string>)
    requires Canonical(false, out) && out != [] && out[0] == ".." && |dir| <= 1
    ensures var end := Walk(dir, out);
            && (out[|out| - 1] == ".." ==> end == [])
            && (out[|out| - 1] != ".." ==> end != [] && end[|end| - 1] == out[|out| - 1])
            && forall name <- end :: name in out
  {
    var front, last := out[..|out| - 1], out[|out| - 1];
    assert out == front + [last];
    WalkOn(dir, front, last);
    if front == [] {
      assert Walk(dir, front) == dir;
    } else {
      FrontIsCanonical(false, out);
      WalkKeepsNames(dir, front);
    }
    assert last in out && forall name <- front :: name in out;
  }

  lemma JoinEdges(parts: seq<string>)
    requires parts != [] && parts[0] != "" && parts[|parts| - 1] != ""
    ensures var text := Join(parts, '/');
            && text != "" && text[0] == parts[0][0]
            && text[|text| - 1] == parts[|parts| - 1][|parts[|parts| - 1]| - 1]
  {
    JoinTail(parts);
  }

  /** The last character of a joined list is the last part's, whatever comes before. */
  lemma {:induction false} JoinTail(parts: seq<string>)
    requires parts != [] && parts[|parts| - 1] != ""
    ensures var text, last := Join(parts, '/'), parts[|parts| - 1];
            text != "" && text[|text| - 1] == last[|last| - 1]
  {
    if |parts| > 1 {
      assert parts[1..][|parts[1..]| - 1] == parts[|parts| - 1];
      JoinTail(parts[1..]);
    }
  }

  lemma RenderedEdges(rooted: bool, out: seq<string>)
    requires Canonical(rooted, out)
    ensures NoEdgeSpace(Render(rooted, out))
            <==> out != [] ==> EndsClean(out[|out| - 1]) && (rooted || BeginsClean(out[0]))
  {
    if out != [] {
      assert out[0] in out && out[|out| - 1] in out;
      JoinEdges(out);
    }
  }

  /** A path that keeps a ".." in front climbs; its last kept name is the last it leads to. */
  lemma KeptBehindUps(out: seq<string>, path: string)
    requires Canonical(false, out) && out != [] && out[0] == ".."
    requires Resolve([], path) == Walk([], out) && Resolve([MARK], path) == Walk([MARK], out)
    ensures Climbs(path)
    ensures var names := Resolve([], path);
            if out[|out| - 1] == ".." then names == [] else names != [] && names[|names| - 1] == out[|out| - 1]
  {
    WalkKeepsNames([], out);
    WalkKeepsNames([MARK], out);
    var end := Walk([MARK], out);
    if end != [] {
      assert end[0] in end && end[0] in out;
    }
  }

  /** Any other path leads to what it keeps. */
  lemma KeptNames(out: seq<string>, path: string)
    requires Canonical(false, out) && (out != [] ==> out[0] != "..")
    requires Resolve([], path) == Walk([], out)
    ensures Resolve([], path) == out
    ensures Resolve([MARK], path) == Walk([MARK], out) ==> !Climbs(path)
  {
    WalkAddsNames([], out);
    WalkAddsNames([MARK], out);
    assert [] + out == out;
  }

  lemma CleanedEdges(path: string)
    ensures NoEdgeSpace(Clean(path)) <==>
            var names := Resolve([], path);
            names != [] ==> EndsClean(names[|names| - 1]) && (Rooted(path) || Climbs(path) || BeginsClean(names[0]))
  {
    var rooted := Rooted(path);
    var out := if path == "" then [] else Reduce(rooted, Split(path, '/'), []);
    ReduceIsCanonical(rooted, Split(path, '/'), []);
    assert Clean(path) == Render(rooted, out);
    RenderedEdges(rooted, out);
    forall dir ensures Resolve(dir, path) == Walk(if rooted then [] else dir, out) {
      CleanKeepsMeaning(path, dir);
      RenderMeans(rooted, out, dir);
    }
    assert Resolve([], path) == Walk([], out);
    if out != [] && out[0] == ".." {
      assert out[0] in out;
      KeptBehindUps(out, path);
    } else {
      KeptNames(out, path);
    }
  }

  /**
    Normalizing a normalized key changes nothing exactly when the edges of the key are clean.
    A space behind a "./" is enough to break it: see `NormalizeNotIdempotent`.
   */
  lemma NormalizeIdempotentIff(key: string)
    ensures var once := Normalize(key);
            once.Ok? && (Normalize(once.value) == once <==> EdgesAreClean(key))
  {
    NormalizeFixes(key);
    CleanedEdges(TrimSpace(key));
  }

  lemma NormalizeFixes(key: string)
    ensures var once := Normalize(key);
            once == Ok(Clean(TrimSpace(key))) && (Normalize(once.value) == once <==> NoEdgeSpace(once.value))
  {
    var clean := Clean(TrimSpace(key));
    NormalizeIsTotal(key);
    NormalizeIsTotal(clean);
    TrimSpaceFixes(clean);
    CleanIdempotent(TrimSpace(key));
    if !NoEdgeSpace(clean) {
      var trimmed := TrimSpace(clean);
      TrimLeftLaws(clean);
      TrimRightLaws(TrimLeft(clean));
      assert |trimmed| < |clean|;
      CleanNeverGrows(trimmed);
      if trimmed == "" {
        assert Clean(trimmed) == ".";
        assert clean != ".";
      }
    }
  }

  /** No segment of the key begins or ends with white space. */
  predicate Unspaced(key: string) {
    forall s <- Split(TrimSpace(key), '/') :: NoEdgeSpace(s)
  }

  lemma {:induction false} WalkEndsInSegments(dir: seq<string>, segments: seq<string>)
    ensures forall name <- Walk(dir, segments) :: name in dir || name in segments
    decreases |segments|
  {
    if segments != [] {
      WalkEndsInSegments(Enter(dir, segments[0]), segments[1..]);
    }
  }

  /** A key whose segments are free of white space at their ends is normalized once and for all. */
  lemma UnspacedIsFixed(key: string)
    requires Unspaced(key)
    ensures EdgesAreClean(key)
  {
    var segments, names := Split(TrimSpace(key), '/'), Resolve([], TrimSpace(key));
    WalkEndsInSegments([], segments);
    if names != [] {
      assert names[0] in names && names[|names| - 1] in names;
    }
  }

  lemma {:induction false} SplitCharacters(s: string)
    ensures forall part <- Split(s, '/'), c <- part :: c in s
  {
    if s != [] {
      SplitCharacters(s[1..]);
      var rest, parts := Split(s[1..], '/'), Split(s, '/');
      forall part, c | part in parts && c in part ensures c in s {
        if s[0] != '/' && part == parts[0] {
          assert rest[0] in rest;
          assert c == s[0] || c in rest[0];
        } else {
          assert part == "" || part in rest;
        }
      }
    }
  }

  /** In particular a key without any white space. */
  lemma WhitespaceFreeIsFixed(key: string)
    requires forall c <- key :: !IsSpace(c)
    ensures Unspaced(key) && EdgesAreClean(key)
  {
    TrimSpaceFixes(key);
    SplitCharacters(key);
    forall part | part in Split(key, '/') ensures NoEdgeSpace(part) {
      assert forall c <- part :: c in key;
    }
    UnspacedIsFixed(key);
  }

  lemma {:induction false} JoinLength(parts: seq<string>, extra: string)
    ensures |Join(parts + [extra], '/')| == (if parts == [] then 0 else |Join(parts, '/')| + 1) + |extra|
  {
    if parts != [] {
      assert (parts + [extra])[1..] == parts[1..] + [extra];
      JoinLength(parts[1..], extra);
    }
  }

  function Size(parts: seq<string>): nat {
    if parts == [] then 0 else |Join(parts, '/')| + 1
  }

  lemma {:induction false} ReduceNeverGrows(rooted: bool, segments: seq<string>, out: seq<string>)
    ensures Size(Reduce(rooted, segments, out)) <= Size(out) + Size(segments)
  {
    if segments != [] {
      var s, rest := segments[0], segments[1..];
      JoinLength(out, s);
      assert Size(segments) == |s| + 1 + Size(rest);
      if s == "" || s == "." {
        ReduceNeverGrows(rooted, rest, out);
      } else if s != ".." {
        ReduceNeverGrows(rooted, rest, out + [s]);
      } else if out != [] && out[|out| - 1] != ".." {
        JoinLength(out[..|out| - 1], out[|out| - 1]);
        assert out == out[..|out| - 1] + [out[|out| - 1]];
        ReduceNeverGrows(rooted, rest, out[..|out| - 1]);
      } else if rooted {
        ReduceNeverGrows(rooted, rest, out);
      } else {
        ReduceNeverGrows(rooted, rest, out + [s]);
      }
    }
  }

  lemma {:induction false} SplitSize(s: string)
    ensures Size(Split(s, '/')) == |s| + 1
  {
    if s != [] {
      SplitSize(s[1..]);
      var rest := Split(s[1..], '/');
      var parts := Split(s, '/');
      if s[0] == '/' {
        assert parts[1..] == rest;
      } else {
        assert parts[1..] == rest[1..] && parts[0] == [s[0]] + rest[0];
      }
    }
  }

  lemma CleanNeverGrows(path: string)
    ensures |Clean(path)| <= if path == "" then 1 else |path|
  {
    if path != "" {
      var rooted := path[0] == '/';
      var segments := Split(path, '/');
      SplitSize(path);
      if rooted {
        assert segments == [""] + Split(path[1..], '/');
        SplitSize(path[1..]);
        ReduceSkipsEmpty(rooted, Split(path[1..], '/'));
        ReduceNeverGrows(rooted, Split(path[1..], '/'), []);
      } else {
        ReduceNeverGrows(rooted, segments, []);
      }
    }
  }

  /** A key whose normal form is not a fixed point: the stored lease key keeps a leading space. */
  lemma NormalizeNotIdempotent()
    ensures Normalize("./ a") == Ok(" a")
    ensures Normalize(" a") == Ok("a")
  {
    var key := "./ a";
    SplitFirst(".", " a", '/');
    SplitFirst(" a", "", '/');
    assert key == "." + ['/'] + " a";
    assert [".", " a"][1..] == [" a"];
    assert Reduce(false, [" a"], []) == [" a"];
    TrimSpaceFixes(key);
    NormalizeIsTotal(key);
    NormalizeTrims();
  }

  lemma NormalizeTrims()
    ensures Normalize(" a") == Ok("a")
  {
    assert " a"[1..] == "a";
    SplitFirst("a", "", '/');
    assert Reduce(false, ["a"], []) == ["a"];
    TrimSpaceFixes("a");
    NormalizeIsTotal(" a");
  }

  lemma NormalizeOfPlain()
    ensures Normalize("ab") == Ok("ab")
  {
    SplitFirst("ab", "", '/');
    assert Reduce(false, ["ab"], []) == ["ab"];
    TrimSpaceFixes("ab");
    NormalizeIsTotal("ab");
  }
}
