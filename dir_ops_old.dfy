/**
 * `list_dir` in `utils/dir_ops_old.py`: the listing recurses into every
 * subdirectory, the tree draws the items in listing order with their bare
 * names, and the call returns the items as well as the tree.
 */
module DirOpsOld {
  import opened Wrappers
  import opened Text
  import opened Lines
  import opened Files
  import opened DirItems

  /* ---------- _list_dir_recursive ---------- */

  /** The item for `entries[k]` found under `path`: a directory always carries its
      own listing. */
  function Info(path: string, entries: seq<Entry>, k: nat): Item
    requires k < |entries|
    decreases entries, 0
  {
    var e := entries[k];
    var p := FullPath(path, e.name);
    match e
    case FileEntry(name, size) => Item(name, p, false, size, false, [])
    case DirEntry(name, sub) =>
      assert e in entries;
      Item(name, p, true, 0, true, Listing(p, sub))
  }

  /** The items of one directory, each entry once, sorted: directories first, then by name. */
  function Listing(path: string, entries: seq<Entry>): seq<Item>
    decreases entries, 1
  {
    Sort(seq(|entries|, k requires 0 <= k < |entries| => Info(path, entries, k)))
  }

  /** `_list_dir_recursive(path)`: append one item per entry, recursing into every
      directory, then sort in place. */
  method ListDirRecursive(path: string, entries: seq<Entry>) returns (items: seq<Item>)
    ensures items == Listing(path, entries)
    decreases entries
  {
    items := [];
    var k := 0;
    while k < |entries|
      invariant 0 <= k <= |entries|
      invariant items == seq(k, j requires 0 <= j < k => Info(path, entries, j))
    {
      var e := entries[k];
      var p := FullPath(path, e.name);
      var info;
      if e.FileEntry? {
        info := Item(e.name, p, false, e.size, false, []);
      } else {
        assert e in entries;
        var children := ListDirRecursive(p, e.entries);
        info := Item(e.name, p, true, 0, true, children);
      }
      items := items + [info];
      k := k + 1;
    }
    items := Sort(items);
  }

  /** Every directory at every depth carries its children: there is no depth cap. */
  predicate FullDepth(items: seq<Item>)
  {
    forall x :: x in items ==> x.hasChildren == x.isDir && FullDepth(x.children)
  }

  /** The item built for one entry: same name, joined path, same kind, the
      file's size. */
  lemma InfoFacts(path: string, entries: seq<Entry>, k: nat)
    requires k < |entries|
    ensures var x := Info(path, entries, k);
            x.name == entries[k].name && x.path == FullPath(path, entries[k].name)
            && (x.isDir <==> entries[k].DirEntry?)
            && (entries[k].FileEntry? ==> x.size == entries[k].size)
            && x.hasChildren == x.isDir
  {
  }

  /** Every listed item comes from one entry, as `InfoFacts` describes. */
  lemma ListingItem(path: string, entries: seq<Entry>, x: Item)
    requires x in Listing(path, entries)
    ensures exists k :: 0 <= k < |entries| && x == Info(path, entries, k)
  {
    var raw := seq(|entries|, k requires 0 <= k < |entries| => Info(path, entries, k));
    SortMember(raw, x);
    var k :| 0 <= k < |raw| && raw[k] == x;
  }

  /** One item per entry, sorted. */
  lemma ListingEntries(path: string, entries: seq<Entry>)
    ensures var items := Listing(path, entries);
            |items| == |entries| && Sorted(items)
  {
    var raw := seq(|entries|, k requires 0 <= k < |entries| => Info(path, entries, k));
    SortSorted(raw);
    assert |multiset(Sort(raw))| == |multiset(raw)|;
  }

  lemma {:induction false} ListingFullDepth(path: string, entries: seq<Entry>)
    ensures FullDepth(Listing(path, entries))
    decreases entries
  {
    forall x | x in Listing(path, entries) ensures x.hasChildren == x.isDir && FullDepth(x.children) {
      ListingItem(path, entries, x);
      var k :| 0 <= k < |entries| && x == Info(path, entries, k);
      var e := entries[k];
      assert e in entries;
      if e.DirEntry? {
        ListingFullDepth(FullPath(path, e.name), e.entries);
      }
    }
  }

  /* ---------- _build_tree_str ---------- */

  /** `_build_tree_str(items, prefix)`: one line per item in order, each listed
      directory followed by its children's tree. */
  function Tree(items: seq<Item>, prefix: string): (r: string)
    ensures r == "" <==> items == []
    ensures r == "" || Terminated(r)
    decreases items, 2
  {
    Part(items, 0, prefix)
  }

  /** The loop from `items[i]` on; only the last item gets `└──`. */
  function Part(items: seq<Item>, i: nat, prefix: string): (r: string)
    ensures r == "" <==> i >= |items|
    ensures r == "" || Terminated(r)
    decreases items, 1, |items| - i
  {
    if i >= |items| then ""
    else
      var x := items[i];
      var last := i == |items| - 1;
      assert x in items;
      Line(prefix, last, x.name) + (Below(items, x, prefix + Ext(last)) + Part(items, i + 1, prefix))
  }

  /** A directory's children, drawn with the extended prefix, when it has the key. */
  function Below(items: seq<Item>, x: Item, prefix: string): (r: string)
    requires x in items
    ensures r == "" || Terminated(r)
    decreases items, 0
  {
    if x.isDir && x.hasChildren then Tree(x.children, prefix) else ""
  }

  /** The lines drawn at one level from `items[i]` on: the bare names, `└──` on the last. */
  function Level(items: seq<Item>, i: nat, prefix: string): (r: seq<string>)
    requires i <= |items|
    ensures |r| == |items| - i
    ensures forall k :: 0 <= k < |r| ==> r[k] == Line(prefix, i + k == |items| - 1, items[i + k].name)
  {
    seq(|items| - i, k requires 0 <= k < |items| - i => Line(prefix, i + k == |items| - 1, items[i + k].name))
  }

  lemma LevelCons(items: seq<Item>, i: nat, prefix: string)
    requires i < |items|
    ensures Level(items, i, prefix) == [Line(prefix, i == |items| - 1, items[i].name)] + Level(items, i + 1, prefix)
  {
    var a := Level(items, i, prefix);
    var b := [Line(prefix, i == |items| - 1, items[i].name)] + Level(items, i + 1, prefix);
    assert |a| == |b|;
    forall k | 0 <= k < |a| ensures a[k] == b[k] {
      if k > 0 {
        assert b[k] == Level(items, i + 1, prefix)[k - 1];
      }
    }
  }

  /** Drawing an item list: it ends a line, has one line per item and per listed
      descendant, every line starts with the prefix, and the lines at this level
      are the items' names in order, `└──` only on the last. */
  lemma {:induction false} TreeShape(items: seq<Item>, prefix: string)
    requires NoNewline(prefix) && NamesOk(items)
    ensures var t := Tree(items, prefix);
            var ls := SplitLines(t);
            (t == "" || Terminated(t)) && |ls| == Count(items) && AllStart(ls, prefix)
            && Top(ls, prefix) == Level(items, 0, prefix)
    decreases items, 2
  {
    PartShape(items, 0, prefix);
    assert items[0..] == items;
  }

  lemma {:induction false} PartShape(items: seq<Item>, i: nat, prefix: string)
    requires i <= |items| && NoNewline(prefix) && NamesOk(items)
    ensures var t := Part(items, i, prefix);
            var ls := SplitLines(t);
            (t == "" || Terminated(t)) && |ls| == Count(items[i..]) && AllStart(ls, prefix)
            && Top(ls, prefix) == Level(items, i, prefix)
    decreases items, 1, |items| - i
  {
    if i < |items| {
      var x := items[i];
      assert x in items;
      var last := i == |items| - 1;
      var sub := Below(items, x, prefix + Ext(last));
      NoNewlineAppend(prefix, Ext(last));
      BelowShape(items, x, prefix + Ext(last));
      var rest := Part(items, i + 1, prefix);
      PartShape(items, i + 1, prefix);
      PrependBelow(prefix, last, sub, rest);
      PrependLine(prefix, last, x.name, sub + rest);
      var below := if x.isDir && x.hasChildren then Count(x.children) else 0;
      var after := Count(items[i + 1..]);
      CountTail(items, i);
      assert Count(items[i..]) == 1 + below + after;
      assert |SplitLines(sub)| == below && |SplitLines(rest)| == after;
      assert |SplitLines(sub + rest)| == below + after;
      LevelCons(items, i, prefix);
    }
  }

  lemma {:induction false} BelowShape(items: seq<Item>, x: Item, prefix: string)
    requires x in items && NoNewline(prefix) && NamesOk(items)
    ensures var t := Below(items, x, prefix);
            var ls := SplitLines(t);
            (t == "" || Terminated(t)) && AllStart(ls, prefix)
            && |ls| == if x.isDir && x.hasChildren then Count(x.children) else 0
    decreases items, 0
  {
    if x.isDir && x.hasChildren {
      TreeShape(x.children, prefix);
    }
  }

  /* ---------- list_dir ---------- */

  /** `list_dir(relative_workspace_path)` on an already normalised path: `target`
      is what is there (nothing, a file or a directory). */
  method ListDir(target: Option<Entry>, path: string) returns (items: seq<Item>, success: bool, tree: string)
    ensures !(target.Some? && target.value.DirEntry?) ==> items == [] && !success && tree == ""
    ensures target.Some? && target.value.DirEntry? ==>
              items == Listing(path, target.value.entries) && success && tree == Tree(items, "")
  {
    if target.None? || target.value.FileEntry? {
      return [], false, "";
    }
    items := ListDirRecursive(path, target.value.entries);
    tree := Tree(items, "");
    success := true;
  }
}
