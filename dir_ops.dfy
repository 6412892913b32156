/**
 * `list_dir` in `utils/dir_ops.py`: the listing goes one level below the
 * target, the tree draws directories (with a trailing '/') before files
 * (with their size in KB), and the text is cut to `max_chars`.
 */
module DirOps {
  import opened Wrappers
  import opened Text
  import opened Lines
  import opened Files
  import opened DirItems

  /** `DEFAULT_MAX_OUTPUT_CHARS`, used when `LIST_DIR_MAX_CHARS` is not set. */
  const DefaultMaxChars: int := 4000

  /* ---------- _list_dir_recursive ---------- */

  /** The item for `entries[k]` found under `path` at `depth`: directories are
      listed only while `depth < 1`. */
  function Info(path: string, entries: seq<Entry>, k: nat, depth: int): Item
    requires k < |entries|
    decreases entries, 0
  {
    var e := entries[k];
    var p := FullPath(path, e.name);
    match e
    case FileEntry(name, size) => Item(name, p, false, size, false, [])
    case DirEntry(name, sub) =>
      assert e in entries;
      if depth < 1 then Item(name, p, true, 0, true, Listing(p, sub, depth + 1))
      else Item(name, p, true, 0, false, [])
  }

  /** The items of one directory, each entry once, sorted: directories first, then by name. */
  function Listing(path: string, entries: seq<Entry>, depth: int): seq<Item>
    decreases entries, 1
  {
    Sort(seq(|entries|, k requires 0 <= k < |entries| => Info(path, entries, k, depth)))
  }

  /** `_list_dir_recursive(path, depth)`: append one item per entry, recursing into
      directories only at depth 0, then sort in place. */
  method ListDirRecursive(path: string, entries: seq<Entry>, depth: int) returns (items: seq<Item>)
    ensures items == Listing(path, entries, depth)
    decreases entries
  {
    items := [];
    var k := 0;
    while k < |entries|
      invariant 0 <= k <= |entries|
      invariant items == seq(k, j requires 0 <= j < k => Info(path, entries, j, depth))
    {
      var e := entries[k];
      var p := FullPath(path, e.name);
      var info;
      if e.FileEntry? {
        info := Item(e.name, p, false, e.size, false, []);
      } else if depth < 1 {
        assert e in entries;
        var children := ListDirRecursive(p, e.entries, depth + 1);
        info := Item(e.name, p, true, 0, true, children);
      } else {
        info := Item(e.name, p, true, 0, false, []);
      }
      items := items + [info];
      k := k + 1;
    }
    items := Sort(items);
  }

  /** One item per entry, with the entry's name, kind and size. */
  lemma ListingEntries(path: string, entries: seq<Entry>, depth: int)
    ensures var items := Listing(path, entries, depth);
            |items| == |entries|
            && multiset(NamesOf(items)) == multiset(NamesOf(seq(|entries|, k requires 0 <= k < |entries| => Info(path, entries, k, depth))))
            && Sorted(items)
  {
    var raw := seq(|entries|, k requires 0 <= k < |entries| => Info(path, entries, k, depth));
    SortSorted(raw);
    assert |multiset(Sort(raw))| == |multiset(raw)|;
  }

  /** The item built for one entry: same name, joined path, same kind, the
      file's size, children exactly for directories at depth 0. */
  lemma InfoFacts(path: string, entries: seq<Entry>, k: nat, depth: int)
    requires k < |entries|
    ensures var x := Info(path, entries, k, depth);
            x.name == entries[k].name && x.path == FullPath(path, entries[k].name)
            && (x.isDir <==> entries[k].DirEntry?)
            && (entries[k].FileEntry? ==> x.size == entries[k].size)
            && (x.hasChildren <==> x.isDir && depth < 1)
  {
  }

  /** Every listed item comes from one entry, as `InfoFacts` describes. */
  lemma ListingItem(path: string, entries: seq<Entry>, depth: int, x: Item)
    requires x in Listing(path, entries, depth)
    ensures exists k :: 0 <= k < |entries| && x == Info(path, entries, k, depth)
  {
    var raw := seq(|entries|, k requires 0 <= k < |entries| => Info(path, entries, k, depth));
    SortMember(raw, x);
    var k :| 0 <= k < |raw| && raw[k] == x;
  }

  /* ---------- _build_tree_str ---------- */

  function Dirs(items: seq<Item>): (r: seq<Item>)
    ensures forall x :: x in r ==> x in items && x.isDir
    decreases |items|
  {
    if items == [] then [] else (if items[0].isDir then [items[0]] else []) + Dirs(items[1..])
  }

  function FilesOf(items: seq<Item>): (r: seq<Item>)
    ensures forall x :: x in r ==> x in items && !x.isDir
    decreases |items|
  {
    if items == [] then [] else (if !items[0].isDir then [items[0]] else []) + FilesOf(items[1..])
  }

  /** A file's label: its name, then `f" ({size / 1024:.1f} KB)"` when the size is
      positive. The decimal rendering `kb` is a parameter. */
  function FileText(x: Item, kb: nat -> string): string
  {
    x.name + (if x.size > 0 then " (" + kb(x.size) + " KB)" else "")
  }

  function DirText(x: Item): string
  {
    x.name + "/"
  }

  /** `_build_tree_str(items, prefix)`: the directory lines (each followed by its
      children's tree), then the file lines. */
  function Tree(items: seq<Item>, prefix: string, kb: nat -> string): (r: string)
    ensures r == "" <==> items == []
    ensures r == "" || Terminated(r)
    decreases items, 2
  {
    DirPart(items, Dirs(items), 0, FilesOf(items) == [], prefix, kb) + FilePart(FilesOf(items), 0, prefix, kb)
  }

  /** The loop over directories from `dirs[i]` on; a directory is the last line
      of its level when it is the last directory and there are no files. */
  function DirPart(items: seq<Item>, dirs: seq<Item>, i: nat, noFiles: bool, prefix: string,
                   kb: nat -> string): (r: string)
    requires forall x :: x in dirs ==> x in items
    ensures r == "" <==> i >= |dirs|
    ensures r == "" || Terminated(r)
    decreases items, 1, |dirs| - i
  {
    if i >= |dirs| then ""
    else
      var x := dirs[i];
      var last := i == |dirs| - 1 && noFiles;
      assert x in items;
      Line(prefix, last, DirText(x)) + (Below(items, x, prefix + Ext(last), kb) + DirPart(items, dirs, i + 1, noFiles, prefix, kb))
  }

  /** A directory's children, drawn with the extended prefix, when it has any. */
  function Below(items: seq<Item>, x: Item, prefix: string, kb: nat -> string): (r: string)
    requires x in items
    ensures r == "" || Terminated(r)
    decreases items, 0
  {
    if x.hasChildren && x.children != [] then Tree(x.children, prefix, kb) else ""
  }

  /** The loop over files from `files[i]` on. */
  function FilePart(files: seq<Item>, i: nat, prefix: string, kb: nat -> string): (r: string)
    ensures r == "" <==> i >= |files|
    ensures r == "" || Terminated(r)
    decreases |files| - i
  {
    if i >= |files| then ""
    else Line(prefix, i == |files| - 1, FileText(files[i], kb)) + FilePart(files, i + 1, prefix, kb)
  }

  /** The lines drawn at one level, in drawing order: directories, then files,
      only the very last with `└──`. */
  function Level(items: seq<Item>, prefix: string, kb: nat -> string): (r: seq<string>)
    ensures |r| == |Dirs(items)| + |FilesOf(items)|
  {
    var xs := Dirs(items) + FilesOf(items);
    seq(|xs|, i requires 0 <= i < |xs| =>
      Line(prefix, i == |xs| - 1, if xs[i].isDir then DirText(xs[i]) else FileText(xs[i], kb)))
  }

  ghost predicate KbOk(kb: nat -> string)
  {
    forall n: nat :: NoNewline(kb(n))
  }

  lemma TextsOk(x: Item, kb: nat -> string)
    requires NoNewline(x.name) && KbOk(kb)
    ensures NoNewline(DirText(x)) && NoNewline(FileText(x, kb))
  {
    NoNewlineAppend(x.name, "/");
    if x.size > 0 {
      NoNewlineAppend(" (", kb(x.size));
      NoNewlineAppend(" (" + kb(x.size), " KB)");
      NoNewlineAppend(x.name, " (" + kb(x.size) + " KB)");
    } else {
      assert FileText(x, kb) == x.name;
    }
  }

  lemma {:induction false} CountSplit(items: seq<Item>)
    ensures Count(items) == Count(Dirs(items)) + Count(FilesOf(items))
    decreases |items|
  {
    if items != [] {
      CountSplit(items[1..]);
      var x := items[0];
      if x.isDir {
        assert Dirs(items) == [x] + Dirs(items[1..]);
        assert ([x] + Dirs(items[1..]))[1..] == Dirs(items[1..]);
        assert FilesOf(items) == FilesOf(items[1..]);
      } else {
        assert FilesOf(items) == [x] + FilesOf(items[1..]);
        assert ([x] + FilesOf(items[1..]))[1..] == FilesOf(items[1..]);
        assert Dirs(items) == Dirs(items[1..]);
      }
    }
  }

  /** The file lines drawn from `files[i]` on. */
  function FileLevel(files: seq<Item>, i: nat, prefix: string, kb: nat -> string): (r: seq<string>)
    requires i <= |files|
    ensures |r| == |files| - i
    ensures forall k :: 0 <= k < |r| ==> r[k] == Line(prefix, i + k == |files| - 1, FileText(files[i + k], kb))
  {
    seq(|files| - i, k requires 0 <= k < |files| - i => Line(prefix, i + k == |files| - 1, FileText(files[i + k], kb)))
  }

  lemma FileLevelCons(files: seq<Item>, i: nat, prefix: string, kb: nat -> string)
    requires i < |files|
    ensures FileLevel(files, i, prefix, kb)
            == [Line(prefix, i == |files| - 1, FileText(files[i], kb))] + FileLevel(files, i + 1, prefix, kb)
  {
    var a := FileLevel(files, i, prefix, kb);
    var b := [Line(prefix, i == |files| - 1, FileText(files[i], kb))] + FileLevel(files, i + 1, prefix, kb);
    assert |a| == |b|;
    forall k | 0 <= k < |a| ensures a[k] == b[k] {
      if k > 0 {
        assert b[k] == FileLevel(files, i + 1, prefix, kb)[k - 1];
      }
    }
  }

  /** The file lines: one per file, each at this level. */
  lemma {:induction false} FilePartShape(files: seq<Item>, i: nat, prefix: string, kb: nat -> string)
    requires i <= |files| && NoNewline(prefix) && KbOk(kb)
    requires forall x :: x in files ==> NoNewline(x.name) && !x.isDir
    ensures var t := FilePart(files, i, prefix, kb);
            var ls := SplitLines(t);
            (t == "" || Terminated(t)) && |ls| == Count(files[i..]) && AllStart(ls, prefix)
            && Top(ls, prefix) == FileLevel(files, i, prefix, kb)
    decreases |files| - i
  {
    if i < |files| {
      var x := files[i];
      assert x in files;
      TextsOk(x, kb);
      FilePartShape(files, i + 1, prefix, kb);
      PrependLine(prefix, i == |files| - 1, FileText(x, kb), FilePart(files, i + 1, prefix, kb));
      CountTail(files, i);
      FileLevelCons(files, i, prefix, kb);
    }
  }

  /** The directory lines drawn from `dirs[i]` on. */
  function DirLevel(dirs: seq<Item>, i: nat, noFiles: bool, prefix: string): (r: seq<string>)
    requires i <= |dirs|
    ensures |r| == |dirs| - i
    ensures forall k :: 0 <= k < |r| ==> r[k] == Line(prefix, i + k == |dirs| - 1 && noFiles, DirText(dirs[i + k]))
  {
    seq(|dirs| - i, k requires 0 <= k < |dirs| - i => Line(prefix, i + k == |dirs| - 1 && noFiles, DirText(dirs[i + k])))
  }

  lemma DirLevelCons(dirs: seq<Item>, i: nat, noFiles: bool, prefix: string)
    requires i < |dirs|
    ensures DirLevel(dirs, i, noFiles, prefix)
            == [Line(prefix, i == |dirs| - 1 && noFiles, DirText(dirs[i]))] + DirLevel(dirs, i + 1, noFiles, prefix)
  {
    var a := DirLevel(dirs, i, noFiles, prefix);
    var b := [Line(prefix, i == |dirs| - 1 && noFiles, DirText(dirs[i]))] + DirLevel(dirs, i + 1, noFiles, prefix);
    assert |a| == |b|;
    forall k | 0 <= k < |a| ensures a[k] == b[k] {
      if k > 0 {
        assert b[k] == DirLevel(dirs, i + 1, noFiles, prefix)[k - 1];
      }
    }
  }

  /** Drawing order at one level is the directory loop's lines, then the file loop's. */
  lemma LevelSplit(items: seq<Item>, prefix: string, kb: nat -> string)
    ensures Level(items, prefix, kb)
            == DirLevel(Dirs(items), 0, FilesOf(items) == [], prefix) + FileLevel(FilesOf(items), 0, prefix, kb)
  {
    var dirs, files := Dirs(items), FilesOf(items);
    var a := Level(items, prefix, kb);
    var d := DirLevel(dirs, 0, files == [], prefix);
    var f := FileLevel(files, 0, prefix, kb);
    var xs := dirs + files;
    assert |a| == |d + f|;
    forall k | 0 <= k < |a| ensures a[k] == (d + f)[k] {
      if k < |dirs| {
        assert xs[k] == dirs[k] && dirs[k] in dirs;
      } else {
        assert xs[k] == files[k - |dirs|] && files[k - |dirs|] in files;
        assert (d + f)[k] == f[k - |dirs|];
      }
    }
  }

  /** Drawing an item list: it ends a line, it has one line per item (and per
      listed descendant), every line starts with the prefix, and the lines at this
      level are `Level`: directories, then files, once each, `└──` only on the last. */
  lemma {:induction false} TreeShape(items: seq<Item>, prefix: string, kb: nat -> string)
    requires NoNewline(prefix) && KbOk(kb) && NamesOk(items)
    ensures var t := Tree(items, prefix, kb);
            var ls := SplitLines(t);
            (t == "" || Terminated(t)) && |ls| == Count(items) && AllStart(ls, prefix)
            && Top(ls, prefix) == Level(items, prefix, kb)
    decreases items, 2
  {
    var dirs, files := Dirs(items), FilesOf(items);
    var d := DirPart(items, dirs, 0, files == [], prefix, kb);
    var f := FilePart(files, 0, prefix, kb);
    PartsOk(items);
    DirPartShape(items, dirs, 0, files == [], prefix, kb);
    FilePartShape(files, 0, prefix, kb);
    JoinDrawn(d, f, prefix);
    CountSplit(items);
    var nd, nf := Count(dirs), Count(files);
    assert |SplitLines(d)| == nd && |SplitLines(f)| == nf;
    assert |SplitLines(d + f)| == nd + nf;
    LevelSplit(items, prefix, kb);
  }

  lemma PartsOk(items: seq<Item>)
    requires NamesOk(items)
    ensures forall x :: x in FilesOf(items) ==> NoNewline(x.name) && !x.isDir
    ensures Dirs(items)[0..] == Dirs(items) && FilesOf(items)[0..] == FilesOf(items)
  {
  }

  lemma {:induction false} DirPartShape(items: seq<Item>, dirs: seq<Item>, i: nat, noFiles: bool,
                                        prefix: string, kb: nat -> string)
    requires forall x :: x in dirs ==> x in items && x.isDir
    requires i <= |dirs| && NoNewline(prefix) && KbOk(kb) && NamesOk(items)
    ensures var t := DirPart(items, dirs, i, noFiles, prefix, kb);
            var ls := SplitLines(t);
            (t == "" || Terminated(t)) && |ls| == Count(dirs[i..]) && AllStart(ls, prefix)
            && Top(ls, prefix) == DirLevel(dirs, i, noFiles, prefix)
    decreases items, 1, |dirs| - i
  {
    if i < |dirs| {
      var x := dirs[i];
      assert x in dirs;
      assert x in items;
      var last := i == |dirs| - 1 && noFiles;
      TextsOk(x, kb);
      var sub := Below(items, x, prefix + Ext(last), kb);
      NoNewlineAppend(prefix, Ext(last));
      BelowShape(items, x, prefix + Ext(last), kb);
      var rest := DirPart(items, dirs, i + 1, noFiles, prefix, kb);
      DirPartShape(items, dirs, i + 1, noFiles, prefix, kb);
      PrependBelow(prefix, last, sub, rest);
      PrependLine(prefix, last, DirText(x), sub + rest);
      var below := if x.isDir && x.hasChildren then Count(x.children) else 0;
      var after := Count(dirs[i + 1..]);
      CountTail(dirs, i);
      assert Count(dirs[i..]) == 1 + below + after;
      assert |SplitLines(sub)| == below && |SplitLines(rest)| == after;
      assert |SplitLines(sub + rest)| == below + after;
      DirLevelCons(dirs, i, noFiles, prefix);
    }
  }

  lemma {:induction false} BelowShape(items: seq<Item>, x: Item, prefix: string, kb: nat -> string)
    requires x in items && x.isDir
    requires NoNewline(prefix) && KbOk(kb) && NamesOk(items)
    ensures var t := Below(items, x, prefix, kb);
            var ls := SplitLines(t);
            (t == "" || Terminated(t)) && AllStart(ls, prefix)
            && |ls| == if x.hasChildren then Count(x.children) else 0
    decreases items, 0
  {
    if x.hasChildren && x.children != [] {
      TreeShape(x.children, prefix, kb);
    }
  }

  /* ---------- list_dir ---------- */

  /** The note appended to a cut tree. */
  function Note(maxChars: int): string
  {
    "\n... (output truncated to first " + IntToString(maxChars) + " characters)\n"
  }

  /** The global cap: a tree longer than `maxChars` is cut there, loses its
      trailing whitespace and gets the note. */
  function CapText(tree: string, maxChars: int): (r: string)
    ensures |tree| <= maxChars ==> r == tree
  {
    if |tree| > maxChars then RStrip(PySliceTo(tree, maxChars)) + Note(maxChars) else tree
  }

  /** A cut tree is a prefix of the tree, shorter than it and than the cap, with
      no trailing whitespace, followed by the note. */
  lemma CapTextCut(tree: string, maxChars: int)
    requires |tree| > maxChars
    ensures exists n: nat :: n <= |tree| && (|tree| > 0 ==> n < |tree|) && CapText(tree, maxChars) == tree[..n] + Note(maxChars)
                             && (maxChars >= 0 ==> n <= maxChars)
                             && (n > 0 ==> !IsSpace(tree[n - 1]))
  {
    var cut := PySliceTo(tree, maxChars);
    var head := RStrip(cut);
    var n := |head|;
    assert |tree| > 0 ==> |cut| < |tree|;
    assert head == tree[..n];
  }

  /** `list_dir(relative_workspace_path)` on an already normalised path: `target`
      is what is there (nothing, a file or a directory); `maxChars` is
      `LIST_DIR_MAX_CHARS` or `DefaultMaxChars`. */
  method ListDir(target: Option<Entry>, path: string, maxChars: int, kb: nat -> string)
    returns (success: bool, tree: string)
    ensures !(target.Some? && target.value.DirEntry?) ==> !success && tree == ""
    ensures target.Some? && target.value.DirEntry? ==>
              success && tree == CapText(Tree(Listing(path, target.value.entries, 0), "", kb), maxChars)
  {
    if target.None? || target.value.FileEntry? {
      return false, "";
    }
    var items := ListDirRecursive(path, target.value.entries, 0);
    tree := Tree(items, "", kb);
    if |tree| > maxChars {
      tree := RStrip(PySliceTo(tree, maxChars)) + Note(maxChars);
    }
    success := true;
  }
}
