/**
 * `ContextManager` in `utils/context_manager.py`: the file-content cache that
 * deduplicates reads by fingerprint, its statistics and summary, and the
 * methods that compact the history for the model's prompt.
 *
 * The cache is specified on a value (`Cache`) by `Add` and friends; the class
 * holds the same state in fields and its methods are proved against those
 * functions.
 */
module ContextCache {
  import opened Wrappers
  import opened Text
  import opened History
  import opened ContextText
  import opened StableSort

  /** One `file_cache` value. The timestamps are whatever the caller's clock gave. */
  datatype CacheEntry = CacheEntry(hash: string, content: string, firstSeen: string, lastAccessed: string,
                                   size: nat, lines: nat)

  /** The cache state: `file_cache`, `content_hashes`, and the order in which
      `file_cache` first received each path (the dictionary's iteration order). */
  datatype Cache = Cache(files: map<string, CacheEntry>, hashes: map<string, string>, order: seq<string>)

  const Empty: Cache := Cache(map[], map[], [])

  /** The default `max_context_chars`, which the agent's shared instance uses. */
  const DefaultMaxContextChars: int := 400000

  /** `content.count('\n') + 1`. */
  function LineCount(content: string): nat
  {
    CountChar(content, '\n') + 1
  }

  predicate Distinct(xs: seq<string>)
  {
    forall i, j :: 0 <= i < j < |xs| ==> xs[i] != xs[j]
  }

  /** Every cached entry is indexed under its own fingerprint and the index names
      only cached entries with that fingerprint; each entry's fingerprint, size
      and line count are those of its content; `order` lists the cached paths once each. */
  ghost predicate Inv(c: Cache, fp: string -> string)
  {
    (forall p :: p in c.files ==> c.files[p].hash in c.hashes && c.hashes[c.files[p].hash] == p)
    && (forall h :: h in c.hashes ==> c.hashes[h] in c.files && c.files[c.hashes[h]].hash == h)
    && (forall p :: p in c.files ==>
          c.files[p].hash == fp(c.files[p].content) && c.files[p].size == |c.files[p].content|
          && c.files[p].lines == LineCount(c.files[p].content))
    && (forall p :: p in c.files <==> p in c.order)
    && Distinct(c.order)
  }

  /** `add_file_content(file_path, content)` at time `now`: the new state and the
      descriptor returned. */
  function Add(c: Cache, fp: string -> string, path: string, content: string, now: string): (r: (Cache, ContentInfo))
    ensures r.1.filePath == path && r.1.hash == fp(content)
    ensures r.1.size == |content| && r.1.lines == LineCount(content)
    ensures r.1.FileReference? <==> fp(content) in c.hashes
    ensures r.1.FileReference? ==> r.1.duplicateOf == c.hashes[fp(content)]
    ensures r.1.FileContent? ==> r.1.content == content
  {
    var h := fp(content);
    var n := LineCount(content);
    if h in c.hashes then
      var files := if path in c.files then c.files[path := c.files[path].(lastAccessed := now)] else c.files;
      (Cache(files, c.hashes, c.order), FileReference(path, h, c.hashes[h], |content|, n))
    else
      var hashes := if path in c.files && c.files[path].hash in c.hashes then c.hashes - {c.files[path].hash}
                    else c.hashes;
      var order := if path in c.files then c.order else c.order + [path];
      (Cache(c.files[path := CacheEntry(h, content, now, now, |content|, n)], hashes[h := path], order),
       FileContent(path, h, content, |content|, n))
  }

  /** The body of `add_file_content` on the cache's two dictionaries and its
      order: a known fingerprint touches the path's access time, new content
      evicts the path's old fingerprint and stores the new entry. */
  method AddEntry(c: Cache, fp: string -> string, path: string, content: string, now: string)
    returns (c': Cache, info: ContentInfo)
    ensures (c', info) == Add(c, fp, path, content, now)
  {
    var files, hashes, paths := c.files, c.hashes, c.order;
    var h := fp(content);
    var n := CountChar(content, '\n') + 1;
    if h in hashes {
      var existing := hashes[h];
      if path in files {
        files := files[path := files[path].(lastAccessed := now)];
      }
      info := FileReference(path, h, existing, |content|, n);
    } else {
      if path in files {
        var oldHash := files[path].hash;
        if oldHash in hashes {
          hashes := hashes - {oldHash};
        }
      } else {
        paths := paths + [path];
      }
      files := files[path := CacheEntry(h, content, now, now, |content|, n)];
      hashes := hashes[h := path];
      info := FileContent(path, h, content, |content|, n);
    }
    c' := Cache(files, hashes, paths);
  }

  /** A known fingerprint changes nothing but the path's access time: no entry is
      added to either map, and the reference names the cached path holding that
      fingerprint. */
  lemma AddKnown(c: Cache, fp: string -> string, path: string, content: string, now: string)
    requires Inv(c, fp) && fp(content) in c.hashes
    ensures var (c', info) := Add(c, fp, path, content, now);
            c'.hashes == c.hashes && c'.order == c.order && c'.files.Keys == c.files.Keys
            && (forall p :: p in c.files ==>
                  c'.files[p] == if p == path then c.files[p].(lastAccessed := now) else c.files[p])
            && info.duplicateOf in c.files && c.files[info.duplicateOf].hash == fp(content)
  {
  }

  /** New content for a path stores an entry for it, indexed under the new
      fingerprint, and evicts the path's old fingerprint. */
  lemma AddNew(c: Cache, fp: string -> string, path: string, content: string, now: string)
    requires Inv(c, fp) && fp(content) !in c.hashes
    ensures var (c', info) := Add(c, fp, path, content, now);
            path in c'.files && c'.files[path].content == content && c'.hashes[fp(content)] == path
            && (path in c.files ==> c.files[path].hash !in c'.hashes)
            && (forall p :: p in c.files && p != path ==> p in c'.files && c'.files[p] == c.files[p])
            && c'.order == if path in c.files then c.order else c.order + [path]
  {
  }

  /** `add_file_content` keeps the invariant. */
  lemma AddInv(c: Cache, fp: string -> string, path: string, content: string, now: string)
    requires Inv(c, fp)
    ensures Inv(Add(c, fp, path, content, now).0, fp)
  {
    var h := fp(content);
    var c' := Add(c, fp, path, content, now).0;
    if h !in c.hashes {
      forall i, j | 0 <= i < j < |c'.order| ensures c'.order[i] != c'.order[j] {
        if path !in c.files && j == |c.order| {
          assert c'.order[j] == path && c'.order[i] == c.order[i];
        }
      }
      forall p | p in c'.order ensures p in c'.files {
        if p != path {
          assert p in c.order;
        }
      }
    }
  }

  /** Once a content has been added, adding it again (under any path) is a
      reference to the path that holds it. */
  lemma AddAgain(c: Cache, fp: string -> string, path: string, other: string, content: string, now: string,
                 later: string)
    requires Inv(c, fp)
    ensures var c' := Add(c, fp, path, content, now).0;
            var info := Add(c', fp, other, content, later).1;
            info.FileReference?
            && info.duplicateOf == if fp(content) in c.hashes then c.hashes[fp(content)] else path
  {
  }

  /** `clear_cache()`: both maps empty, and the invariant holds. */
  lemma EmptyInv(fp: string -> string)
    ensures Inv(Empty, fp)
  {
  }

  /** The image of a key set under the fingerprint, when no two keys share one,
      has as many elements as the key set. */
  lemma {:induction false} HashImageSize(ks: set<string>, files: map<string, CacheEntry>)
    requires ks <= files.Keys
    requires forall p, q :: p in ks && q in ks && files[p].hash == files[q].hash ==> p == q
    ensures |set p | p in ks :: files[p].hash| == |ks|
    decreases |ks|
  {
    if ks != {} {
      var x :| x in ks;
      var rest := ks - {x};
      HashImageSize(rest, files);
      var img := set p | p in ks :: files[p].hash;
      var imgRest := set p | p in rest :: files[p].hash;
      assert img == imgRest + {files[x].hash};
      assert files[x].hash !in imgRest;
    }
  }

  /** Under the invariant there are exactly as many fingerprints as cached files,
      so `unique_content_hashes == cached_files`. */
  lemma HashCount(c: Cache, fp: string -> string)
    requires Inv(c, fp)
    ensures |c.hashes| == |c.files|
  {
    HashImageSize(c.files.Keys, c.files);
    var img := set p | p in c.files.Keys :: c.files[p].hash;
    assert img == c.hashes.Keys by {
      forall h | h in c.hashes ensures h in img {
        assert c.files[c.hashes[h]].hash == h;
      }
    }
    assert |c.hashes.Keys| == |c.files.Keys|;
  }

  /* ---------- get_cache_stats ---------- */

  /** The integer fields of `get_cache_stats()`; `deduplication_ratio` is
      `uniqueHashes / max(cachedFiles, 1)`. */
  datatype Stats = Stats(cachedFiles: nat, uniqueHashes: nat, totalSize: nat, totalLines: nat)

  predicate Listed(ps: seq<string>, files: map<string, CacheEntry>)
  {
    forall k :: 0 <= k < |ps| ==> ps[k] in files
  }

  /** Every listed path of a consistent cache has an entry. */
  lemma InvListed(c: Cache, fp: string -> string)
    requires Inv(c, fp)
    ensures Listed(c.order, c.files)
  {
    forall k | 0 <= k < |c.order| ensures c.order[k] in c.files {
      assert c.order[k] in c.order;
    }
  }

  function SizeSum(ps: seq<string>, files: map<string, CacheEntry>): nat
    requires Listed(ps, files)
    decreases |ps|
  {
    if ps == [] then 0 else SizeSum(ps[..|ps| - 1], files) + files[ps[|ps| - 1]].size
  }

  function LineSum(ps: seq<string>, files: map<string, CacheEntry>): nat
    requires Listed(ps, files)
    decreases |ps|
  {
    if ps == [] then 0 else LineSum(ps[..|ps| - 1], files) + files[ps[|ps| - 1]].lines
  }

  function StatsOf(c: Cache): Stats
    requires Listed(c.order, c.files)
  {
    Stats(|c.files|, |c.hashes|, SizeSum(c.order, c.files), LineSum(c.order, c.files))
  }

  /** The ratio's numerator and denominator are equal for a non-empty cache and
      the numerator is 0 for an empty one: the ratio is always 1.0 or 0.0. */
  lemma RatioIsOneOrZero(c: Cache, fp: string -> string)
    requires Inv(c, fp)
    ensures var s := StatsOf(c);
            (s.cachedFiles > 0 ==> s.uniqueHashes == s.cachedFiles)
            && (s.cachedFiles == 0 ==> s.uniqueHashes == 0)
  {
    HashCount(c, fp);
  }

  /** Sums over paths that do not include `path` ignore its entry. */
  lemma {:induction false} SizeSumFrame(ps: seq<string>, files: map<string, CacheEntry>, path: string, e: CacheEntry)
    requires Listed(ps, files) && forall k :: 0 <= k < |ps| ==> ps[k] != path
    ensures Listed(ps, files[path := e]) && SizeSum(ps, files[path := e]) == SizeSum(ps, files)
    decreases |ps|
  {
    if ps != [] {
      SizeSumFrame(ps[..|ps| - 1], files, path, e);
    }
  }

  /** Caching a new content under a new path adds its size to the total. */
  lemma AddNewSize(c: Cache, fp: string -> string, path: string, content: string, now: string)
    requires Inv(c, fp) && fp(content) !in c.hashes && path !in c.files
    ensures var c' := Add(c, fp, path, content, now).0;
            Listed(c'.order, c'.files) && SizeSum(c'.order, c'.files) == SizeSum(c.order, c.files) + |content|
  {
    var c' := Add(c, fp, path, content, now).0;
    assert c'.order[..|c'.order| - 1] == c.order;
    SizeSumFrame(c.order, c.files, path, c'.files[path]);
  }

  /* ---------- _get_file_state_summary ---------- */

  /** One line per cached file: its line count and the first 8 characters of its fingerprint. */
  function SummaryLine(path: string, e: CacheEntry): string
  {
    "- " + path + ": " + IntToString(e.lines) + " lines (hash: " + Take(e.hash, 8) + "...)"
  }

  function SummaryLines(ps: seq<string>, files: map<string, CacheEntry>): (r: seq<string>)
    requires Listed(ps, files)
    ensures |r| == |ps|
    ensures forall k :: 0 <= k < |ps| ==> r[k] == SummaryLine(ps[k], files[ps[k]])
  {
    seq(|ps|, k requires 0 <= k < |ps| => SummaryLine(ps[k], files[ps[k]]))
  }

  const SummaryHeader: string := "File State Summary:"

  /** A list built line by line as the summary loop does is the header and the summary lines. */
  lemma SummaryBuilt(summary: seq<string>, ps: seq<string>, files: map<string, CacheEntry>)
    requires Listed(ps, files)
    requires |summary| == |ps| + 1 && summary[0] == SummaryHeader
    requires forall j :: 0 <= j < |ps| ==> summary[j + 1] == SummaryLine(ps[j], files[ps[j]])
    ensures summary == [SummaryHeader] + SummaryLines(ps, files)
  {
  }

  /** The loop of `_get_file_state_summary()`: the header, then one line per path. */
  method SummaryList(ps: seq<string>, files: map<string, CacheEntry>) returns (summary: seq<string>)
    requires Listed(ps, files)
    ensures summary == [SummaryHeader] + SummaryLines(ps, files)
  {
    summary := [SummaryHeader];
    var k := 0;
    while k < |ps|
      invariant 0 <= k <= |ps|
      invariant |summary| == k + 1 && summary[0] == SummaryHeader
      invariant forall j :: 0 <= j < k ==> summary[j + 1] == SummaryLine(ps[j], files[ps[j]])
    {
      var p := ps[k];
      summary := summary + [SummaryLine(p, files[p])];
      k := k + 1;
    }
    SummaryBuilt(summary, ps, files);
  }

  /** `_get_file_state_summary()`: empty for an empty cache, otherwise the header
      and one line per file in the cache's order. */
  function FileSummary(c: Cache): string
    requires Listed(c.order, c.files)
  {
    if c.files == map[] then "" else Join([SummaryHeader] + SummaryLines(c.order, c.files), "\n")
  }

  lemma {:induction false} JoinHead(parts: seq<string>, sep: string)
    requires parts != []
    ensures StartsWith(Join(parts, sep), parts[0])
  {
    if |parts| > 1 {
      var r := Join(parts, sep);
      assert r == parts[0] + (sep + Join(parts[1..], sep));
      assert r[..|parts[0]|] == parts[0];
    }
  }

  /** The summary is empty exactly for an empty cache and otherwise starts with
      its header, so the final cut always counts it as an important section. */
  lemma FileSummaryShape(c: Cache)
    requires Listed(c.order, c.files)
    ensures FileSummary(c) == "" <==> c.files == map[]
    ensures c.files != map[] ==> StartsWith(FileSummary(c), SummaryHeader) && Important(FileSummary(c))
  {
    if c.files != map[] {
      JoinHead([SummaryHeader] + SummaryLines(c.order, c.files), "\n");
      HeaderImportant(FileSummary(c));
    }
  }

  /** A text that opens with the summary header is not empty and is an important section. */
  lemma HeaderImportant(s: string)
    requires StartsWith(s, SummaryHeader)
    ensures s != "" && Important(s)
  {
    assert OccursAt(s, "File State Summary", 0) by {
      assert s[..|SummaryHeader|] == SummaryHeader;
      assert s[0..18] == s[..|SummaryHeader|][0..18];
    }
  }

  /* ---------- facts the class's loops use ---------- */

  lemma {:induction false} ImportantOfSnoc(xs: seq<string>, x: string)
    ensures ImportantOf(xs + [x]) == ImportantOf(xs) + (if Important(x) then [x] else [])
    ensures OthersOf(xs + [x]) == OthersOf(xs) + (if Important(x) then [] else [x])
    decreases |xs|
  {
    if xs != [] {
      assert (xs + [x])[1..] == xs[1..] + [x];
      ImportantOfSnoc(xs[1..], x);
    } else {
      assert ([] + [x])[1..] == [];
    }
  }

  lemma {:induction false} ScoredOfSnoc(older: seq<Entry>, a: Entry, query: string)
    ensures ScoredOf(older + [a], query)
            == ScoredOf(older, query) + (if Overlap(query, a) > 0 then [(Overlap(query, a), a)] else [])
    decreases |older|
  {
    if older != [] {
      var t := older[1..];
      assert (older + [a])[1..] == t + [a];
      ScoredOfSnoc(t, a, query);
      var o := Overlap(query, older[0]);
      AppendAssoc(if o > 0 then [(o, older[0])] else [], ScoredOf(t, query),
                  if Overlap(query, a) > 0 then [(Overlap(query, a), a)] else []);
    } else {
      assert ([] + [a])[1..] == [];
    }
  }

  lemma HeaderBuilt(result: seq<string>, a: Entry)
    requires a.params != []
    requires |result| == 3 + |a.params|
    requires result[..3] == ["- Tool: " + a.tool, "- Reason: " + a.reason, "- Parameters:"]
    requires forall j :: 0 <= j < |a.params| ==>
               result[3 + j] == "  - " + a.params[j].0 + ": " + Render(a.params[j].1)
    ensures result == HeaderLines(a)
  {
    var h := HeaderLines(a);
    forall j | 0 <= j < |h| ensures result[j] == h[j] {
      if j < 3 {
        assert result[j] == result[..3][j];
      } else {
        assert h[j] == h[3..][j - 3];
      }
    }
  }

  /* ---------- the loops of the text side, as methods ---------- */

  /** `_format_action_for_context(action, is_recent)`: the parameter loop, then
      the result lines. */
  method FormatAction(a: Entry, isRecent: bool) returns (r: string)
    ensures r == FormatText(a, isRecent)
  {
    var result := ["- Tool: " + a.tool, "- Reason: " + a.reason];
    if a.params != [] {
      result := result + ["- Parameters:"];
      var k := 0;
      while k < |a.params|
        invariant 0 <= k <= |a.params|
        invariant |result| == 3 + k
        invariant result[..3] == ["- Tool: " + a.tool, "- Reason: " + a.reason, "- Parameters:"]
        invariant forall j :: 0 <= j < k ==> result[3 + j] == "  - " + a.params[j].0 + ": " + Render(a.params[j].1)
      {
        var (key, v) := a.params[k];
        result := result + ["  - " + key + ": " + Render(v)];
        k := k + 1;
      }
      HeaderBuilt(result, a);
    }
    assert result == HeaderLines(a);
    if a.result.Some? {
      var res := a.result.value;
      var tail := [StatusLine(a.tool, res)] + ToolLines(a.tool, res, Truthy(SuccessOf(res)), isRecent);
      result := result + tail;
    } else {
      assert result == result + [];
    }
    r := Join(result, "\n");
  }

  /** The sentence loop: whole sentences, each with ". ", while they fit. */
  method SentenceLoop(sentences: seq<string>, limit: int) returns (truncated: string)
    requires limit >= 0
    ensures truncated == Acc(sentences, Fit(sentences, 0, limit))
  {
    truncated := "";
    var j := 0;
    while j < |sentences|
      invariant 0 <= j <= |sentences|
      invariant truncated == Acc(sentences, j) && |truncated| <= limit
      invariant Fit(sentences, j, limit) == Fit(sentences, 0, limit)
    {
      var test := truncated + sentences[j] + ". ";
      if |test| > limit {
        return;
      }
      truncated := test;
      j := j + 1;
    }
  }

  /** The summaries of the entries in order, one `_format_action_for_context`
      call each. */
  lemma SummariesSnoc(es: seq<Entry>, i: nat, s: string, isRecent: bool)
    requires i < |es| && s == FormatText(es[i], isRecent)
    ensures Summaries(es[..i + 1], isRecent) == Summaries(es[..i], isRecent) + [s]
  {
    var a, b := Summaries(es[..i + 1], isRecent), Summaries(es[..i], isRecent) + [s];
    forall k | 0 <= k < i + 1 ensures a[k] == b[k] {
      if k < i {
        assert a[k] == FormatText(es[k], isRecent) == b[k];
      }
    }
  }

  method FormatAll(es: seq<Entry>, isRecent: bool) returns (sums: seq<string>)
    ensures sums == Summaries(es, isRecent)
  {
    sums := [];
    var i := 0;
    while i < |es|
      invariant 0 <= i <= |es| && sums == Summaries(es[..i], isRecent)
    {
      var s := FormatAction(es[i], isRecent);
      SummariesSnoc(es, i, s, isRecent);
      sums := sums + [s];
      i := i + 1;
    }
    assert es[..i] == es;
  }

  /** `_truncate_content_intelligently(content, char_limit)`; the character
      fallback is straight-line code, written as `CharCut`. */
  method TruncateContent(content: string, limit: int) returns (r: Option<string>)
    ensures r == Truncate(content, limit)
  {
    if limit <= 0 {
      return None;
    }
    if |content| <= limit {
      return Some(content);
    }
    var sentences := Split(content, ". ");
    if |sentences| > 1 {
      var truncated := SentenceLoop(sentences, limit);
      var kept := Strip(truncated);
      if kept != "" {
        assert BySentence(content, limit) && kept == SentenceCut(content, limit);
        return Some(kept + Marker);
      }
    }
    assert !BySentence(content, limit);
    r := Some(CharCut(content, limit) + Marker);
  }

  /** The partition loop of `_truncate_context_to_limit`. */
  method Partition(sections: seq<string>) returns (important: seq<string>, others: seq<string>)
    ensures important == ImportantOf(sections) && others == OthersOf(sections)
  {
    important := [];
    others := [];
    var k := 0;
    while k < |sections|
      invariant 0 <= k <= |sections|
      invariant important == ImportantOf(sections[..k]) && others == OthersOf(sections[..k])
    {
      ImportantOfSnoc(sections[..k], sections[k]);
      assert sections[..k + 1] == sections[..k] + [sections[k]];
      if Contains(sections[k], "File State Summary") || Contains(sections[k], "Recent Action") {
        important := important + [sections[k]];
      } else {
        others := others + [sections[k]];
      }
      k := k + 1;
    }
    assert sections[..k] == sections;
  }

  /** The loop over the important sections. */
  method KeepImportantLoop(important: seq<string>, max: int) returns (kept: seq<string>, current: int)
    ensures kept == KeepImportant(important, 0, 0, max).sections
    ensures current == KeepImportant(important, 0, 0, max).length
  {
    ghost var full := KeepImportant(important, 0, 0, max);
    kept := [];
    current := 0;
    var i := 0;
    while i < |important|
      invariant 0 <= i <= |important|
      invariant full.sections == kept + KeepImportant(important, i, current, max).sections
      invariant full.length == KeepImportant(important, i, current, max).length
    {
      var section := important[i];
      if current + |section| + 2 < max {
        assert KeepImportant(important, i, current, max).sections
               == [section] + KeepImportant(important, i + 1, current + |section| + 2, max).sections;
        kept := kept + [section];
        current := current + |section| + 2;
        i := i + 1;
      } else {
        var rem := max - current - 20;
        if rem > 500 {
          var t := TruncateContent(section, rem);
          if t.Some? && t.value != "" {
            kept := kept + [t.value];
          }
        }
        return;
      }
    }
  }

  lemma KeepOthersStep(others: seq<string>, j: nat, cur: int, max: int)
    requires j < |others| && cur + |others[j]| + 2 < max
    ensures KeepOthers(others, j, cur, max) == [others[j]] + KeepOthers(others, j + 1, cur + |others[j]| + 2, max)
  {
  }

  /** The loop over the other sections. */
  method KeepOthersLoop(others: seq<string>, current: int, max: int) returns (kept: seq<string>)
    ensures kept == KeepOthers(others, 0, current, max)
  {
    kept := [];
    var cur := current;
    var j := 0;
    while j < |others| && cur + |others[j]| + 2 < max
      invariant 0 <= j <= |others|
      invariant KeepOthers(others, 0, current, max) == kept + KeepOthers(others, j, cur, max)
    {
      KeepOthersStep(others, j, cur, max);
      kept := kept + [others[j]];
      cur := cur + |others[j]| + 2;
      j := j + 1;
    }
  }

  /** One more entry scored. */
  lemma ScoredStep(older: seq<Entry>, k: nat, query: string)
    requires k < |older|
    ensures ScoredOf(older[..k + 1], query)
            == ScoredOf(older[..k], query)
               + (if Overlap(query, older[k]) > 0 then [(Overlap(query, older[k]), older[k])] else [])
  {
    assert older[..k + 1] == older[..k] + [older[k]];
    ScoredOfSnoc(older[..k], older[k], query);
  }

  /** The scoring loop of `_get_relevant_older_actions`. */
  method ScoreActions(older: seq<Entry>, query: string) returns (scored: seq<(int, Entry)>)
    ensures scored == ScoredOf(older, query)
  {
    var queryWords := WordSet(query);
    scored := [];
    var k := 0;
    while k < |older|
      invariant 0 <= k <= |older|
      invariant scored == ScoredOf(older[..k], query)
    {
      var a := older[k];
      var overlap := |queryWords * WordSet(ActionText(a))|;
      ScoredStep(older, k, query);
      if overlap > 0 {
        scored := scored + [(overlap, a)];
      }
      k := k + 1;
    }
    assert older[..k] == older;
  }

  /** `w` in front of a loop's kept summaries. */
  function Prepend(w: seq<string>, p: Picked): Picked
  {
    Picked(w + p.whole, p.tail)
  }

  lemma PrependTwice(a: seq<string>, b: seq<string>, p: Picked)
    ensures Prepend(a, Prepend(b, p)) == Prepend(a + b, p)
  {
    assert a + (b + p.whole) == (a + b) + p.whole;
  }

  lemma PickFits(sums: seq<string>, i: nat, used: int, budget: int)
    requires i < |sums| && used + |sums[i]| <= budget
    ensures Pick(sums, i, used, budget)
            == if i + 1 >= 5 then Picked([sums[i]], None)
               else Prepend([sums[i]], Pick(sums, i + 1, used + |sums[i]|, budget))
  {
  }

  /** A summary over the room left, truncated; an empty cut is dropped. */
  method CutSummary(s: string, room: int) returns (t: Option<string>)
    requires |s| > room
    ensures t == CutTail(s, room)
  {
    t := TruncateContent(s, room);
    if t.Some? && t.value == "" {
      t := None;
    }
  }

  /** The summary over the budget ends the loop: cut when more than 500
      characters are left, dropped otherwise. */
  lemma PickStop(full: Picked, relevant: seq<string>, sums: seq<string>, i: nat, used: int, budget: int)
    requires i < |sums| && used + |sums[i]| > budget
    requires full == Prepend(relevant, Pick(sums, i, used, budget))
    ensures full == Picked(relevant, if budget - used > 500 then CutTail(sums[i], budget - used) else None)
  {
    assert relevant + [] == relevant;
  }

  lemma PickEnd(full: Picked, relevant: seq<string>, sums: seq<string>, used: int, budget: int)
    requires full == Prepend(relevant, Pick(sums, |sums|, used, budget))
    ensures full == Picked(relevant, None)
  {
    assert relevant + [] == relevant;
  }

  lemma PrependNil(p: Picked)
    ensures Prepend([], p) == p
  {
    assert [] + p.whole == p.whole;
  }

  /** The summary over the budget: cut to the budget left when that is more
      than 500 characters, dropped otherwise. */
  method PickCut(relevant: seq<string>, s: string, used: int, budget: int) returns (relevant': seq<string>)
    requires used + |s| > budget
    ensures relevant' == Items(Picked(relevant, if budget - used > 500 then CutTail(s, budget - used) else None))
  {
    var rem := budget - used;
    if rem > 500 {
      var t := CutSummary(s, rem);
      if t.Some? {
        relevant' := relevant + [t.value];
      } else {
        relevant' := relevant;
      }
    } else {
      relevant' := relevant;
    }
  }

  /** The budget loop of `_get_relevant_older_actions` over the ranked summaries. */
  method PickLoop(sums: seq<string>, budget: int) returns (relevant: seq<string>)
    ensures relevant == Items(Pick(sums, 0, 0, budget))
  {
    ghost var full := Pick(sums, 0, 0, budget);
    relevant := [];
    var used := 0;
    var i := 0;
    PrependNil(full);
    while i < |sums|
      invariant 0 <= i <= |sums| && |relevant| == i
      invariant full == Prepend(relevant, Pick(sums, i, used, budget))
    {
      var s := sums[i];
      if used + |s| <= budget {
        PickFits(sums, i, used, budget);
        if i + 1 >= 5 {
          relevant := relevant + [s];
          assert Items(full) == relevant;
          return;
        }
        PrependTwice(relevant, [s], Pick(sums, i + 1, used + |s|, budget));
        relevant := relevant + [s];
        used := used + |s|;
        i := i + 1;
      } else {
        PickStop(full, relevant, sums, i, used, budget);
        relevant := PickCut(relevant, s, used, budget);
        return;
      }
    }
    PickEnd(full, relevant, sums, used, budget);
    assert Items(full) == relevant;
  }

  /** `_get_relevant_older_actions(older_actions, current_query, char_budget)`:
      score, sort (stably, by `list.sort`), then keep within the budget. */
  method RelevantOlderActions(older: seq<Entry>, query: string, budget: int) returns (relevant: seq<string>)
    ensures relevant == RelevantOlder(older, query, budget)
  {
    var scored := ScoreActions(older, query);
    var ranked := SortDesc(scored, Score);
    var sums := FormatAll(EntriesOf(ranked), false);
    relevant := PickLoop(sums, budget);
  }

  /** `w` in front of a recent run's kept summaries. */
  function PrependRun(w: seq<string>, r: RecentRun): RecentRun
  {
    RecentRun(Prepend(w, r.kept), r.total)
  }

  /** Nothing in front changes nothing. */
  lemma PrependRunNil(r: RecentRun)
    ensures PrependRun([], r) == r
  {
    assert [] + r.kept.whole == r.kept.whole;
  }

  /** One kept summary moves from the loop's remainder to its prefix. */
  lemma RecentStep(full: RecentRun, kept: seq<string>, sums: seq<string>, i: nat, total: int, avail: int)
    requires i < |sums| && total + |sums[i]| <= avail
    requires full == PrependRun(kept, RecentLoop(sums, i, total, avail))
    ensures full == PrependRun(kept + [sums[i]], RecentLoop(sums, i + 1, total + |sums[i]| + 20, avail))
  {
    var rest := RecentLoop(sums, i + 1, total + |sums[i]| + 20, avail);
    assert RecentLoop(sums, i, total, avail) == RecentRun(Picked([sums[i]] + rest.kept.whole, rest.kept.tail), rest.total);
    assert kept + ([sums[i]] + rest.kept.whole) == (kept + [sums[i]]) + rest.kept.whole;
  }

  /** A kept summary, as the loop appends it: the run's remainder moves on and
      the summary is labelled with its position. */
  lemma RecentKeep(full: RecentRun, kept: seq<string>, parts: seq<string>, sums: seq<string>, i: nat,
                   total: int, avail: int)
    requires i < |sums| && total + |sums[i]| <= avail && |kept| == i
    requires full == PrependRun(kept, RecentLoop(sums, i, total, avail)) && parts == LabelAll(kept)
    ensures full == PrependRun(kept + [sums[i]], RecentLoop(sums, i + 1, total + |sums[i]| + 20, avail))
    ensures parts + [Label(i + 1) + sums[i]] == LabelAll(kept + [sums[i]])
  {
    RecentStep(full, kept, sums, i, total, avail);
    LabelAllSnoc(kept, sums[i]);
  }

  /** Past the last summary the parts are the labelled run. */
  lemma RecentDone(full: RecentRun, kept: seq<string>, parts: seq<string>, sums: seq<string>, total: int, avail: int)
    requires full == PrependRun(kept, RecentLoop(sums, |sums|, total, avail)) && parts == LabelAll(kept)
    ensures parts == Labelled(full.kept) && total == full.total
  {
    RecentEnd(full, kept, sums, total, avail);
    assert Items(full.kept) == kept;
  }

  /** The summary that does not fit ends the loop, cut or dropped. */
  lemma RecentStop(full: RecentRun, kept: seq<string>, sums: seq<string>, i: nat, total: int, avail: int)
    requires i < |sums| && total + |sums[i]| > avail
    requires full == PrependRun(kept, RecentLoop(sums, i, total, avail))
    ensures var t := CutTail(sums[i], avail - total);
            full.kept == Picked(kept, t) && full.total == if t.Some? then total + |t.value| + 20 else total
  {
    assert kept + [] == kept;
  }

  /** Past the last summary the loop keeps nothing more. */
  lemma RecentEnd(full: RecentRun, kept: seq<string>, sums: seq<string>, total: int, avail: int)
    requires full == PrependRun(kept, RecentLoop(sums, |sums|, total, avail))
    ensures full.kept == Picked(kept, None) && full.total == total
  {
    assert kept + [] == kept;
  }

  /** The summary that did not fit: cut it to the room left and label it, or
      drop it. */
  method RecentCut(ghost kept: seq<string>, parts: seq<string>, n: nat, s: string, total: int, avail: int)
    returns (parts': seq<string>, total': int)
    requires parts == LabelAll(kept) && n == |kept| && total + |s| > avail
    ensures var t := CutTail(s, avail - total);
            parts' == Labelled(Picked(kept, t)) && total' == if t.Some? then total + |t.value| + 20 else total
  {
    var t := CutSummary(s, avail - total);
    CutLabelled(kept, parts, n, t);
    if t.Some? {
      parts' := parts + [Label(n + 1) + t.value];
      total' := total + |t.value| + 20;
    } else {
      parts' := parts;
      total' := total;
    }
  }

  /** The labelled parts once the cut summary, if any, is appended. */
  lemma CutLabelled(kept: seq<string>, parts: seq<string>, n: nat, t: Option<string>)
    requires parts == LabelAll(kept) && n == |kept|
    ensures Labelled(Picked(kept, t)) == if t.Some? then parts + [Label(n + 1) + t.value] else parts
  {
    if t.Some? {
      assert Items(Picked(kept, t)) == kept + [t.value];
      LabelAllSnoc(kept, t.value);
    } else {
      assert Items(Picked(kept, None)) == kept;
    }
  }

  /** The recent loop of `get_contextual_history`, with its labels. */
  method RecentTier(sums: seq<string>, avail: int) returns (parts: seq<string>, total: int)
    ensures var run := RecentLoop(sums, 0, 0, avail);
            parts == Labelled(run.kept) && total == run.total
  {
    ghost var full := RecentLoop(sums, 0, 0, avail);
    ghost var kept: seq<string> := [];
    parts := [];
    total := 0;
    var i := 0;
    PrependRunNil(full);
    while i < |sums|
      invariant 0 <= i <= |sums| && |parts| == i && |kept| == i
      invariant parts == LabelAll(kept)
      invariant full == PrependRun(kept, RecentLoop(sums, i, total, avail))
    {
      var s := sums[i];
      if total + |s| <= avail {
        RecentKeep(full, kept, parts, sums, i, total, avail);
        kept := kept + [s];
        parts := parts + [Label(i + 1) + s];
        total := total + |s| + 20;
        i := i + 1;
      } else {
        RecentStop(full, kept, sums, i, total, avail);
        parts, total := RecentCut(kept, parts, i, s, total, avail);
        return;
      }
    }
    RecentDone(full, kept, parts, sums, total, avail);
  }

  /** The older loop of `get_contextual_history`. */
  method OlderTier(rel: seq<string>, total: int, avail: int) returns (more: seq<string>)
    ensures more == OlderParts(rel, 0, total, avail)
  {
    ghost var full := OlderParts(rel, 0, total, avail);
    more := [];
    var t := total;
    var j := 0;
    while j < |rel| && t + |rel[j]| <= avail
      invariant 0 <= j <= |rel|
      invariant full == more + OlderParts(rel, j, t, avail)
    {
      ghost var later := OlderParts(rel, j + 1, t + |rel[j]| + 2, avail);
      assert OlderParts(rel, j, t, avail) == [rel[j]] + later;
      assert full == (more + [rel[j]]) + later;
      more := more + [rel[j]];
      t := t + |rel[j]| + 2;
      j := j + 1;
    }
  }

  /** The recent tier of `get_contextual_history`: the last five actions. */
  method RecentProgress(history: seq<Entry>, avail: int) returns (p: Progress)
    ensures p == RecentStage(Summaries(RecentOf(history), true), avail)
  {
    var recent := if |history| >= 5 then history[|history| - 5..] else history;
    var sums := FormatAll(recent, true);
    var parts, total := RecentTier(sums, avail);
    p := Progress(parts, total);
  }

  /** The older tier of `get_contextual_history`. */
  method OlderProgress(history: seq<Entry>, query: string, avail: int, p: Progress) returns (parts: seq<string>)
    ensures parts == OlderStage(RankedSummaries(OlderOf(history), query), OlderOf(history) != [], avail, p)
  {
    parts := p.parts;
    var remaining := avail - p.total;
    var older := OlderOf(history);
    if remaining > 5000 && older != [] {
      var rel := RelevantOlderActions(older, query, remaining);
      var more := OlderTier(rel, p.total, avail);
      parts := parts + more;
    }
  }

  /* ---------- the class ---------- */

  class ContextManager {
    const maxContextChars: int
    /** `_calculate_content_hash`: the first 16 hex digits of the SHA-256 of the UTF-8 bytes. */
    const fingerprint: string -> string
    var fileCache: map<string, CacheEntry>
    var contentHashes: map<string, string>
    var order: seq<string>

    function State(): Cache
      reads this
    {
      Cache(fileCache, contentHashes, order)
    }

    ghost predicate Valid()
      reads this
    {
      Inv(State(), fingerprint)
    }

    /** `ContextManager(max_context_chars)`. */
    constructor(maxContextChars: int, fingerprint: string -> string)
      ensures Valid() && State() == Empty
      ensures this.maxContextChars == maxContextChars && this.fingerprint == fingerprint
    {
      this.maxContextChars := maxContextChars;
      this.fingerprint := fingerprint;
      fileCache := map[];
      contentHashes := map[];
      order := [];
    }

    /** `add_file_content(file_path, content)`, `now` being the clock's reading. */
    method AddFileContent(path: string, content: string, now: string) returns (info: ContentInfo)
      requires Valid()
      modifies this
      ensures Valid()
      ensures (State(), info) == Add(old(State()), fingerprint, path, content, now)
    {
      AddInv(State(), fingerprint, path, content, now);
      var c;
      c, info := AddEntry(State(), fingerprint, path, content, now);
      fileCache, contentHashes, order := c.files, c.hashes, c.order;
    }

    /** `clear_cache()`. */
    method ClearCache()
      modifies this
      ensures Valid() && State() == Empty
    {
      fileCache := map[];
      contentHashes := map[];
      order := [];
    }

    /** `get_cache_stats()`: the totals are summed over the cached entries in order. */
    method GetCacheStats() returns (s: Stats)
      requires Valid()
      ensures s == StatsOf(State())
    {
      var size := 0;
      var lines := 0;
      var k := 0;
      while k < |order|
        invariant 0 <= k <= |order|
        invariant Listed(order[..k], fileCache)
        invariant size == SizeSum(order[..k], fileCache) && lines == LineSum(order[..k], fileCache)
      {
        assert order[..k + 1][..k] == order[..k];
        size := size + fileCache[order[k]].size;
        lines := lines + fileCache[order[k]].lines;
        k := k + 1;
      }
      assert order[..k] == order;
      s := Stats(|fileCache|, |contentHashes|, size, lines);
    }

    /** `_get_file_state_summary()`. */
    method FileStateSummary() returns (r: string)
      requires Listed(order, fileCache)
      ensures r == FileSummary(State())
    {
      if fileCache == map[] {
        return "";
      }
      var summary := SummaryList(order, fileCache);
      r := Join(summary, "\n");
    }

    /** `_truncate_context_to_limit(context)`. */
    method TruncateContextToLimit(context: string) returns (r: string)
      ensures r == FitToLimit(context, maxContextChars)
    {
      if |context| <= maxContextChars {
        return context;
      }
      var important, others := Partition(Split(context, "\n\n"));
      var kept, current := KeepImportantLoop(important, maxContextChars);
      var rest := KeepOthersLoop(others, current, maxContextChars);
      r := Join(kept + rest, "\n\n");
    }

    /** The file summary goes in front of the recent parts when files are
        cached, less than 80% of the available characters are used and it fits. */
    method SummaryStep(p: Progress, avail: int) returns (p': Progress)
      requires Listed(order, fileCache)
      ensures p' == WithSummary(p, avail, fileCache != map[], FileSummary(State()))
    {
      p' := p;
      if fileCache != map[] && 5 * p.total < 4 * avail {
        var fs := FileStateSummary();
        if p.total + |fs| <= avail {
          p' := Progress([fs] + p.parts, p.total + |fs| + 2);
        }
      }
    }

    /** `get_contextual_history(full_history, current_query)`. It reads the
        cache and changes nothing. */
    method GetContextualHistory(history: seq<Entry>, query: string) returns (r: string)
      requires Valid()
      ensures r == ContextualHistory(history, query, maxContextChars, fileCache != map[], FileSummary(State()))
    {
      if history == [] {
        return "No previous actions.";
      }
      var avail := if maxContextChars >= 0 then maxContextChars * 9 / 10 else -((-maxContextChars) * 9 / 10);
      var p := RecentProgress(history, avail);
      InvListed(State(), fingerprint);
      p := SummaryStep(p, avail);
      var parts := OlderProgress(history, query, avail, p);
      r := Join(parts, "\n\n");
      if |r| > maxContextChars {
        r := TruncateContextToLimit(r);
      }
    }
  }
}
