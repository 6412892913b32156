/**
 * `grep_search` and `_glob_to_regex`. The regular-expression engine is not
 * modelled: whether the query compiles, whether a compiled pattern is found
 * in a line, whether a translated glob compiles and whether it matches a file
 * name are all inputs. The directory walk is the sequence of files in the
 * order `os.walk` yields them.
 */
module SearchOps {
  import opened Wrappers
  import opened Text
  import opened Files

  /** The most matches one search returns. */
  const MaxResults: nat := 50

  /* ---------- _glob_to_regex ---------- */

  /** What one glob character becomes: `.` is escaped, `*` is any run, `?` is any character. */
  function GlobChar(c: char): string
  {
    if c == '.' then "\\." else if c == '*' then ".*" else if c == '?' then "." else [c]
  }

  /** The character-by-character translation of a glob. */
  function GlobEach(g: string): string
    decreases |g|
  {
    if g == [] then "" else GlobChar(g[0]) + GlobEach(g[1..])
  }

  /** The three `str.replace` calls, in the order `_glob_to_regex` applies them. */
  function Translate(g: string): string
  {
    ReplaceChar(ReplaceChar(ReplaceChar(g, '.', "\\."), '*', ".*"), '?', ".")
  }

  /** The anchored regular expression for one glob, `f"^{regex}$"`. */
  function Anchor(g: string): (r: string)
    ensures |r| >= 2 && r[0] == '^' && r[|r| - 1] == '$'
  {
    "^" + Translate(g) + "$"
  }

  lemma {:induction false} ReplaceCharAppend(a: string, b: string, c: char, rep: string)
    ensures ReplaceChar(a + b, c, rep) == ReplaceChar(a, c, rep) + ReplaceChar(b, c, rep)
    decreases |a|
  {
    if a == [] {
      assert a + b == b;
    } else {
      assert (a + b)[1..] == a[1..] + b;
      ReplaceCharAppend(a[1..], b, c, rep);
    }
  }

  lemma ReplaceCharHead(s: string, c: char, rep: string)
    requires s != []
    ensures ReplaceChar(s, c, rep) == ReplaceChar([s[0]], c, rep) + ReplaceChar(s[1..], c, rep)
  {
    assert s == [s[0]] + s[1..];
    ReplaceCharAppend([s[0]], s[1..], c, rep);
  }

  /** Each replacement leaves what the earlier ones produced alone, so the three
      passes are one pass of `GlobChar`. */
  lemma {:induction false} TranslateIsGlobEach(g: string)
    ensures Translate(g) == GlobEach(g)
    decreases |g|
  {
    if g != [] {
      var c := g[0];
      var r1 := ReplaceChar(g, '.', "\\.");
      var r2 := ReplaceChar(r1, '*', ".*");
      ReplaceCharHead(g, '.', "\\.");
      var h1 := ReplaceChar([c], '.', "\\.");
      var t1 := ReplaceChar(g[1..], '.', "\\.");
      ReplaceCharAppend(h1, t1, '*', ".*");
      var h2 := ReplaceChar(h1, '*', ".*");
      var t2 := ReplaceChar(t1, '*', ".*");
      ReplaceCharAppend(h2, t2, '?', ".");
      var h3 := ReplaceChar(h2, '?', ".");
      assert h3 == GlobChar(c) by {
        if c == '.' {
          assert h1 == "\\.";
          assert ReplaceChar(h1[1..], '*', ".*") == ".";
          assert h2 == "\\.";
          assert ReplaceChar(h2[1..], '?', ".") == ".";
        } else if c == '*' {
          assert h1 == "*";
          assert h2 == ".*";
          assert ReplaceChar(h2[1..], '?', ".") == "*";
        } else if c == '?' {
          assert h1 == "?";
          assert h2 == "?";
        } else {
          assert h1 == [c];
          assert h2 == [c];
        }
      }
      TranslateIsGlobEach(g[1..]);
    }
  }

  /** The number of comma parts that are not blank once stripped. */
  function NonBlank(parts: seq<string>): (n: nat)
    ensures n <= |parts|
    decreases |parts|
  {
    if parts == [] then 0 else (if Strip(parts[0]) != "" then 1 else 0) + NonBlank(parts[1..])
  }

  /** One comma part as `_glob_to_regex` handles it: blank once stripped, or
      translated to a pattern that does not compile, gives nothing. */
  function Usable(part: string, compiles: string -> bool): (r: Option<string>)
    ensures r.Some? ==> Strip(part) != "" && r.value == Anchor(Strip(part)) && compiles(r.value)
  {
    var g := Strip(part);
    if g == "" || !compiles(Anchor(g)) then None else Some(Anchor(g))
  }

  /** The filter-map over comma parts, kept in order. */
  function Patterns(parts: seq<string>, compiles: string -> bool): (r: seq<string>)
    ensures |r| <= NonBlank(parts)
    decreases |parts|
  {
    if parts == [] then []
    else
      (if Usable(parts[0], compiles).Some? then [Usable(parts[0], compiles).value] else [])
      + Patterns(parts[1..], compiles)
  }

  /** Every pattern comes from a usable comma part. */
  lemma {:induction false} PatternsFromParts(parts: seq<string>, compiles: string -> bool, x: string)
    requires x in Patterns(parts, compiles)
    ensures exists p :: p in parts && Strip(p) != "" && x == Anchor(Strip(p)) && compiles(x)
    decreases |parts|
  {
    if Usable(parts[0], compiles) != Some(x) {
      PatternsFromParts(parts[1..], compiles, x);
      var p :| p in parts[1..] && Strip(p) != "" && x == Anchor(Strip(p)) && compiles(x);
      assert p in parts;
    }
  }

  /** When every translation compiles, each non-blank part gives exactly one pattern. */
  lemma {:induction false} PatternsAllCompile(parts: seq<string>, compiles: string -> bool)
    requires forall p :: p in parts ==> compiles(Anchor(Strip(p)))
    ensures |Patterns(parts, compiles)| == NonBlank(parts)
    decreases |parts|
  {
    if parts != [] {
      assert forall p :: p in parts[1..] ==> p in parts;
      PatternsAllCompile(parts[1..], compiles);
    }
  }

  /** `_glob_to_regex(pattern_str)`: one anchored regular expression per usable comma part. */
  function GlobToRegex(patternStr: string, compiles: string -> bool): (r: seq<string>)
    ensures |r| <= NonBlank(Split(patternStr, ","))
  {
    Patterns(Split(patternStr, ","), compiles)
  }

  /** The filter for one of `include_pattern` / `exclude_pattern`: none or empty
      means no filter, written as an empty list because both are only tested
      for truthiness. */
  function Filter(pattern: Option<string>, compiles: string -> bool): seq<string>
  {
    if pattern.None? || pattern.value == "" then [] else GlobToRegex(pattern.value, compiles)
  }

  /* ---------- grep_search ---------- */

  /** One file of the walk: its directory, its name and, when it can be opened, its lines. */
  datatype WalkFile = WalkFile(root: string, name: string, lines: Option<seq<string>>)

  /** One result: the file's path, the 1-based line number and the right-stripped line. */
  datatype Match = Match(file: string, lineNumber: int, content: string)

  predicate AnyMatch(regexes: seq<string>, name: string, matches: (string, string) -> bool)
  {
    exists r :: r in regexes && matches(r, name)
  }

  /** A file is skipped when incl patterns exist and none matches its name,
      or when an excl pattern matches it. */
  predicate Skipped(name: string, incl: seq<string>, excl: seq<string>, matches: (string, string) -> bool)
  {
    (|incl| > 0 && !AnyMatch(incl, name, matches)) || AnyMatch(excl, name, matches)
  }

  /** The matches among the first lines of one file, in line order. */
  function LineMatches(path: string, lines: seq<string>, found: string -> bool): (r: seq<Match>)
    ensures |r| <= |lines|
    decreases |lines|
  {
    if lines == [] then []
    else
      var init := lines[..|lines| - 1];
      var last := lines[|lines| - 1];
      LineMatches(path, init, found)
        + (if found(last) then [Match(path, |lines|, RStrip(last))] else [])
  }

  /** Each match names a line the pattern is found in, by its 1-based number,
      with that line's text right-stripped. */
  lemma {:induction false} LineMatchesSound(path: string, lines: seq<string>, found: string -> bool, k: nat)
    requires k < |LineMatches(path, lines, found)|
    ensures var m := LineMatches(path, lines, found)[k];
            1 <= m.lineNumber <= |lines| && found(lines[m.lineNumber - 1])
            && m == Match(path, m.lineNumber, RStrip(lines[m.lineNumber - 1]))
    decreases |lines|
  {
    var init := lines[..|lines| - 1];
    if k < |LineMatches(path, init, found)| {
      LineMatchesSound(path, init, found, k);
    }
  }

  /** Matches come in increasing line order. */
  lemma {:induction false} LineMatchesOrdered(path: string, lines: seq<string>, found: string -> bool, k: nat, m: nat)
    requires k < m < |LineMatches(path, lines, found)|
    ensures LineMatches(path, lines, found)[k].lineNumber < LineMatches(path, lines, found)[m].lineNumber
    decreases |lines|
  {
    var init := lines[..|lines| - 1];
    var r0 := LineMatches(path, init, found);
    if m < |r0| {
      LineMatchesOrdered(path, init, found, k, m);
    } else {
      LineMatchesSound(path, init, found, k);
    }
  }

  /** Every line the pattern is found in gives a match. */
  lemma {:induction false} LineMatchesComplete(path: string, lines: seq<string>, found: string -> bool, j: nat)
    requires j < |lines| && found(lines[j])
    ensures exists k :: 0 <= k < |LineMatches(path, lines, found)|
                        && LineMatches(path, lines, found)[k].lineNumber == j + 1
    decreases |lines|
  {
    var r := LineMatches(path, lines, found);
    if j == |lines| - 1 {
      assert r[|r| - 1].lineNumber == j + 1;
    } else {
      var init := lines[..|lines| - 1];
      LineMatchesComplete(path, init, found, j);
      var k :| 0 <= k < |LineMatches(path, init, found)| && LineMatches(path, init, found)[k].lineNumber == j + 1;
      assert r[k] == LineMatches(path, init, found)[k];
    }
  }

  /** The matches one file of the walk contributes. */
  function FileMatches(f: WalkFile, incl: seq<string>, excl: seq<string>,
                       matches: (string, string) -> bool, found: string -> bool): seq<Match>
  {
    if Skipped(f.name, incl, excl, matches) || f.lines.None? then []
    else LineMatches(FullPath(f.root, f.name), f.lines.value, found)
  }

  /** All matches of the walk, in traversal order, before the cap. */
  function WalkMatches(walk: seq<WalkFile>, incl: seq<string>, excl: seq<string>,
                       matches: (string, string) -> bool, found: string -> bool): seq<Match>
    decreases |walk|
  {
    if walk == [] then []
    else WalkMatches(walk[..|walk| - 1], incl, excl, matches, found)
         + FileMatches(walk[|walk| - 1], incl, excl, matches, found)
  }

  /** Every match comes from a file of the walk that was opened and not filtered out. */
  lemma {:induction false} WalkMatchesFiltered(walk: seq<WalkFile>, incl: seq<string>, excl: seq<string>,
                                               matches: (string, string) -> bool, found: string -> bool, k: nat)
    requires k < |WalkMatches(walk, incl, excl, matches, found)|
    ensures exists i :: 0 <= i < |walk| && !Skipped(walk[i].name, incl, excl, matches) && walk[i].lines.Some?
                        && WalkMatches(walk, incl, excl, matches, found)[k].file == FullPath(walk[i].root, walk[i].name)
    decreases |walk|
  {
    var init := walk[..|walk| - 1];
    var pre := WalkMatches(init, incl, excl, matches, found);
    if k < |pre| {
      WalkMatchesFiltered(init, incl, excl, matches, found, k);
      var i :| 0 <= i < |init| && !Skipped(init[i].name, incl, excl, matches) && init[i].lines.Some?
               && pre[k].file == FullPath(init[i].root, init[i].name);
      assert init[i] == walk[i];
    } else {
      var f := walk[|walk| - 1];
      LineMatchesSound(FullPath(f.root, f.name), f.lines.value, found, k - |pre|);
    }
  }

  /** The first `MaxResults` elements. */
  function Cap(ms: seq<Match>): (r: seq<Match>)
    ensures |r| <= MaxResults
    ensures |ms| <= MaxResults ==> r == ms
    ensures |ms| > MaxResults ==> |r| == MaxResults
    ensures r == ms[..|r|]
  {
    if |ms| <= MaxResults then ms else ms[..MaxResults]
  }

  /** What `grep_search` returns: an invalid query gives `([], False)`, otherwise
      the first 50 matches of the walk and `True`. */
  function GrepSpec(queryCompiles: bool, walk: seq<WalkFile>, incl: seq<string>, excl: seq<string>,
                    matches: (string, string) -> bool, found: string -> bool): (r: (seq<Match>, bool))
    ensures r.1 <==> queryCompiles
    ensures !queryCompiles ==> r.0 == []
    ensures |r.0| <= MaxResults
  {
    if !queryCompiles then ([], false) else (Cap(WalkMatches(walk, incl, excl, matches, found)), true)
  }

  predicate IsPrefix(a: seq<Match>, b: seq<Match>)
  {
    |a| <= |b| && a == b[..|a|]
  }

  /** One more line scanned. */
  lemma LineMatchesSnoc(path: string, lines: seq<string>, found: string -> bool, j: nat)
    requires j < |lines|
    ensures LineMatches(path, lines[..j + 1], found)
            == LineMatches(path, lines[..j], found) + (if found(lines[j]) then [Match(path, j + 1, RStrip(lines[j]))] else [])
  {
    assert lines[..j + 1][..j] == lines[..j];
  }

  lemma MatchesAssoc(a: seq<Match>, b: seq<Match>, c: seq<Match>)
    ensures (a + b) + c == a + (b + c)
  {
  }

  /** A common front keeps one list a prefix of another. */
  lemma PrefixAfter(front: seq<Match>, a: seq<Match>, b: seq<Match>)
    requires IsPrefix(a, b)
    ensures IsPrefix(front + a, front + b)
  {
    assert (front + b)[..|front + a|] == front + b[..|a|];
  }

  lemma {:induction false} LineMatchesPrefix(path: string, lines: seq<string>, found: string -> bool, j: nat)
    requires j <= |lines|
    ensures IsPrefix(LineMatches(path, lines[..j], found), LineMatches(path, lines, found))
    decreases |lines|
  {
    if j < |lines| {
      var init := lines[..|lines| - 1];
      assert init[..j] == lines[..j];
      LineMatchesPrefix(path, init, found, j);
    } else {
      assert lines[..j] == lines;
    }
  }

  lemma {:induction false} WalkMatchesPrefix(walk: seq<WalkFile>, incl: seq<string>, excl: seq<string>,
                                             matches: (string, string) -> bool, found: string -> bool, i: nat)
    requires i <= |walk|
    ensures IsPrefix(WalkMatches(walk[..i], incl, excl, matches, found), WalkMatches(walk, incl, excl, matches, found))
    decreases |walk|
  {
    if i < |walk| {
      var init := walk[..|walk| - 1];
      assert init[..i] == walk[..i];
      WalkMatchesPrefix(init, incl, excl, matches, found, i);
    } else {
      assert walk[..i] == walk;
    }
  }

  lemma PrefixTrans(a: seq<Match>, b: seq<Match>, c: seq<Match>)
    requires IsPrefix(a, b) && IsPrefix(b, c)
    ensures IsPrefix(a, c)
  {
    assert c[..|b|][..|a|] == c[..|a|];
  }

  /** One more file of the walk appends its own matches. */
  lemma WalkMatchesStep(walk: seq<WalkFile>, incl: seq<string>, excl: seq<string>,
                        matches: (string, string) -> bool, found: string -> bool, i: nat)
    requires i < |walk|
    ensures WalkMatches(walk[..i + 1], incl, excl, matches, found)
            == WalkMatches(walk[..i], incl, excl, matches, found) + FileMatches(walk[i], incl, excl, matches, found)
  {
    assert walk[..i + 1][..i] == walk[..i];
  }

  /** Stopping early at `MaxResults` leaves the first `MaxResults` matches. */
  lemma CapOfPrefix(done: seq<Match>, all: seq<Match>)
    requires IsPrefix(done, all) && |done| == MaxResults
    ensures done == Cap(all)
  {
  }

  /** The inner loop of `grep_search` over one file's lines: `full` says the
      search stopped at `MaxResults`. */
  method ScanFile(path: string, lines: seq<string>, found: string -> bool, before: seq<Match>)
    returns (results: seq<Match>, full: bool)
    requires |before| < MaxResults
    ensures !full ==> results == before + LineMatches(path, lines, found) && |results| < MaxResults
    ensures full ==> |results| == MaxResults && IsPrefix(results, before + LineMatches(path, lines, found))
  {
    results := before;
    var j := 0;
    while j < |lines|
      invariant 0 <= j <= |lines|
      invariant results == before + LineMatches(path, lines[..j], found)
      invariant |results| < MaxResults
    {
      LineMatchesSnoc(path, lines, found, j);
      if found(lines[j]) {
        MatchesAssoc(before, LineMatches(path, lines[..j], found), [Match(path, j + 1, RStrip(lines[j]))]);
        results := results + [Match(path, j + 1, RStrip(lines[j]))];
        if |results| >= MaxResults {
          LineMatchesPrefix(path, lines, found, j + 1);
          PrefixAfter(before, LineMatches(path, lines[..j + 1], found), LineMatches(path, lines, found));
          return results, true;
        }
      } else {
        assert LineMatches(path, lines[..j], found) + [] == LineMatches(path, lines[..j], found);
      }
      j := j + 1;
    }
    assert lines[..j] == lines;
    return results, false;
  }

  /** `grep_search`'s loops: over the walk, over each file's lines, appending each
      line the query is found in and stopping as soon as there are 50 results. */
  method Walk(walk: seq<WalkFile>, incl: seq<string>, excl: seq<string>,
              matches: (string, string) -> bool, found: string -> bool)
    returns (results: seq<Match>)
    ensures results == Cap(WalkMatches(walk, incl, excl, matches, found))
  {
    results := [];
    var i := 0;
    while i < |walk|
      invariant 0 <= i <= |walk|
      invariant results == WalkMatches(walk[..i], incl, excl, matches, found)
      invariant |results| < MaxResults
    {
      var f := walk[i];
      WalkMatchesStep(walk, incl, excl, matches, found, i);
      if !Skipped(f.name, incl, excl, matches) && f.lines.Some? {
        var full;
        results, full := ScanFile(FullPath(f.root, f.name), f.lines.value, found, results);
        if full {
          WalkMatchesPrefix(walk, incl, excl, matches, found, i + 1);
          PrefixTrans(results, WalkMatches(walk[..i + 1], incl, excl, matches, found),
                      WalkMatches(walk, incl, excl, matches, found));
          CapOfPrefix(results, WalkMatches(walk, incl, excl, matches, found));
          return results;
        }
      }
      i := i + 1;
    }
    assert walk[..i] == walk;
  }

  /** `grep_search`: an invalid query fails with no results; otherwise the
      include and exclude globs are translated and the walk is searched. */
  method GrepSearch(queryCompiles: bool, walk: seq<WalkFile>, includePattern: Option<string>,
                    excludePattern: Option<string>, compiles: string -> bool,
                    matches: (string, string) -> bool, found: string -> bool)
    returns (results: seq<Match>, success: bool)
    ensures (results, success)
            == GrepSpec(queryCompiles, walk, Filter(includePattern, compiles), Filter(excludePattern, compiles),
                        matches, found)
  {
    if !queryCompiles {
      return [], false;
    }
    results := Walk(walk, Filter(includePattern, compiles), Filter(excludePattern, compiles), matches, found);
    success := true;
  }
}
