/**
 * What both `list_dir` variants share: the directory as `os.listdir` sees it,
 * the item records `_list_dir_recursive` builds, the sort that puts
 * directories first and then orders by name, and the tree-line format
 * `_build_tree_str` writes.
 */
module DirItems {
  import opened Text
  import opened Lines

  /** A directory entry on disk, children in `os.listdir` order. A file's size is
      what `os.path.getsize` reports, 0 when it fails. */
  datatype Entry = FileEntry(name: string, size: nat) | DirEntry(name: string, entries: seq<Entry>)

  /** The item dictionary: `name`, `path`, `type`, `size` (files) and `children`
      (directories that were listed; `hasChildren` says whether the key exists). */
  datatype Item = Item(name: string, path: string, isDir: bool, size: nat, hasChildren: bool, children: seq<Item>)

  /* ---------- the sort key (0 if directory else 1, name) ---------- */

  /** Python's `<=` on strings: lexicographic by code point. */
  predicate StrLe(a: string, b: string)
    decreases |a|
  {
    a == [] || (b != [] && (a[0] < b[0] || (a[0] == b[0] && StrLe(a[1..], b[1..]))))
  }

  lemma {:induction false} StrLeTotal(a: string, b: string)
    ensures StrLe(a, b) || StrLe(b, a)
    decreases |a|
  {
    if a != [] && b != [] && a[0] == b[0] {
      StrLeTotal(a[1..], b[1..]);
    }
  }

  lemma {:induction false} StrLeTrans(a: string, b: string, c: string)
    requires StrLe(a, b) && StrLe(b, c)
    ensures StrLe(a, c)
    decreases |a|
  {
    if a != [] && a[0] == b[0] && b[0] == c[0] {
      StrLeTrans(a[1..], b[1..], c[1..]);
    }
  }

  /** The order of the keys `(0 if x["type"] == "directory" else 1, x["name"])`. */
  predicate KeyLe(a: Item, b: Item)
  {
    (a.isDir && !b.isDir) || (a.isDir == b.isDir && StrLe(a.name, b.name))
  }

  lemma KeyLeTotal(a: Item, b: Item)
    ensures KeyLe(a, b) || KeyLe(b, a)
  {
    StrLeTotal(a.name, b.name);
  }

  lemma KeyLeTrans(a: Item, b: Item, c: Item)
    requires KeyLe(a, b) && KeyLe(b, c)
    ensures KeyLe(a, c)
  {
    if a.isDir == b.isDir == c.isDir {
      StrLeTrans(a.name, b.name, c.name);
    }
  }

  predicate Sorted(xs: seq<Item>)
  {
    forall i, j :: 0 <= i < j < |xs| ==> KeyLe(xs[i], xs[j])
  }

  /** The names of the items, in order. */
  function NamesOf(xs: seq<Item>): (r: seq<string>)
    ensures |r| == |xs|
    decreases |xs|
  {
    if xs == [] then [] else [xs[0].name] + NamesOf(xs[1..])
  }

  function Insert(x: Item, xs: seq<Item>): (r: seq<Item>)
    ensures multiset(r) == multiset(xs) + multiset{x}
    ensures multiset(NamesOf(r)) == multiset(NamesOf(xs)) + multiset{x.name}
    decreases |xs|
  {
    if xs == [] || KeyLe(x, xs[0]) then [x] + xs
    else
      var r := [xs[0]] + Insert(x, xs[1..]);
      assert xs == [xs[0]] + xs[1..];
      assert r[1..] == Insert(x, xs[1..]);
      r
  }

  /** `items.sort(key=...)`: a stable sort, here an insertion sort. */
  function Sort(xs: seq<Item>): (r: seq<Item>)
    ensures multiset(r) == multiset(xs)
    ensures multiset(NamesOf(r)) == multiset(NamesOf(xs))
    decreases |xs|
  {
    if xs == [] then []
    else
      assert xs == [xs[0]] + xs[1..];
      Insert(xs[0], Sort(xs[1..]))
  }

  /** Sorting keeps every item. */
  lemma SortMember(xs: seq<Item>, x: Item)
    requires x in Sort(xs)
    ensures x in xs
  {
    assert x in multiset(Sort(xs));
  }

  lemma InsertMember(x: Item, xs: seq<Item>, y: Item)
    requires y in Insert(x, xs)
    ensures y == x || y in xs
  {
    assert y in multiset(Insert(x, xs));
  }

  /** Putting an item in front of sorted items it precedes keeps them sorted. */
  lemma ConsSorted(x: Item, xs: seq<Item>)
    requires Sorted(xs) && xs != [] && KeyLe(x, xs[0])
    ensures Sorted([x] + xs)
  {
    var r := [x] + xs;
    forall i, j | 0 <= i < j < |r| ensures KeyLe(r[i], r[j]) {
      if i == 0 {
        assert r[j] == xs[j - 1];
        if j > 1 {
          KeyLeTrans(x, xs[0], xs[j - 1]);
        }
      } else {
        assert r[i] == xs[i - 1] && r[j] == xs[j - 1];
      }
    }
  }

  /** The first of sorted items precedes every item of the rest with `x` inserted,
      when it precedes `x`. */
  lemma HeadPrecedes(x: Item, xs: seq<Item>)
    requires Sorted(xs) && xs != [] && KeyLe(xs[0], x)
    ensures forall y :: y in Insert(x, xs[1..]) ==> KeyLe(xs[0], y)
  {
    forall y | y in Insert(x, xs[1..]) ensures KeyLe(xs[0], y) {
      InsertMember(x, xs[1..], y);
      if y != x {
        var m :| 0 <= m < |xs[1..]| && xs[1..][m] == y;
        assert xs[m + 1] == y;
      }
    }
  }

  lemma {:induction false} InsertSorted(x: Item, xs: seq<Item>)
    requires Sorted(xs)
    ensures Sorted(Insert(x, xs))
    decreases |xs|
  {
    if xs == [] {
    } else if KeyLe(x, xs[0]) {
      ConsSorted(x, xs);
    } else {
      KeyLeTotal(x, xs[0]);
      assert Sorted(xs[1..]);
      InsertSorted(x, xs[1..]);
      HeadPrecedes(x, xs);
      var rest := Insert(x, xs[1..]);
      SortedCons(xs[0], rest);
    }
  }

  /** An item that precedes every item of a sorted list can go in front of it. */
  lemma SortedCons(h: Item, rest: seq<Item>)
    requires Sorted(rest) && forall y :: y in rest ==> KeyLe(h, y)
    ensures Sorted([h] + rest)
  {
    var r := [h] + rest;
    forall i, j | 0 <= i < j < |r| ensures KeyLe(r[i], r[j]) {
      assert r[j] == rest[j - 1];
      if i > 0 {
        assert r[i] == rest[i - 1];
      }
    }
  }

  lemma {:induction false} SortSorted(xs: seq<Item>)
    ensures Sorted(Sort(xs))
    decreases |xs|
  {
    if xs != [] {
      SortSorted(xs[1..]);
      InsertSorted(xs[0], Sort(xs[1..]));
    }
  }

  /** After sorting, no directory comes after a file, and names ascend within each group. */
  lemma SortGroups(xs: seq<Item>, i: nat, j: nat)
    requires i < j < |Sort(xs)|
    ensures Sort(xs)[j].isDir ==> Sort(xs)[i].isDir
    ensures Sort(xs)[i].isDir == Sort(xs)[j].isDir ==> StrLe(Sort(xs)[i].name, Sort(xs)[j].name)
  {
    SortSorted(xs);
  }

  /* ---------- tree lines ---------- */

  predicate NoNewline(s: string)
  {
    forall k :: 0 <= k < |s| ==> s[k] != NL
  }

  /** Every name in the tree, at every depth, is free of '\n'. */
  predicate NamesOk(items: seq<Item>)
  {
    forall x :: x in items ==> NoNewline(x.name) && NamesOk(x.children)
  }

  function Connector(last: bool): string
  {
    if last then "└──" else "├──"
  }

  /** What children's lines are indented by: blank under the last item, a bar otherwise. */
  function Ext(last: bool): (r: string)
    ensures |r| == 4 && NoNewline(r) && r[0] != '├' && r[0] != '└'
  {
    if last then "    " else "│   "
  }

  /** One tree line, `f"{prefix}{connector} {text}\n"`. */
  function Line(prefix: string, last: bool, text: string): string
  {
    prefix + Connector(last) + " " + text + "\n"
  }

  /** A line that belongs to the level drawn with `prefix`: a connector right after it. */
  predicate AtLevel(l: string, prefix: string)
  {
    |l| > |prefix| && (l[|prefix|] == '├' || l[|prefix|] == '└')
  }

  /** The lines drawn at the level of `prefix`, leaving out deeper ones. */
  function Top(ls: seq<string>, prefix: string): seq<string>
    decreases |ls|
  {
    if ls == [] then [] else (if AtLevel(ls[0], prefix) then [ls[0]] else []) + Top(ls[1..], prefix)
  }

  predicate AllStart(ls: seq<string>, prefix: string)
  {
    forall k :: 0 <= k < |ls| ==> StartsWith(ls[k], prefix)
  }

  /** The lines an item list is drawn with: one per item, and, below each listed
      directory, its children's lines. */
  function Count(items: seq<Item>): nat
    decreases items
  {
    if items == [] then 0
    else
      (1 + if items[0].isDir && items[0].hasChildren then Count(items[0].children) else 0) + Count(items[1..])
  }

  lemma NoNewlineAppend(a: string, b: string)
    requires NoNewline(a) && NoNewline(b)
    ensures NoNewline(a + b)
  {
    forall k | 0 <= k < |a + b| ensures (a + b)[k] != NL {
      if k >= |a| {
        assert (a + b)[k] == b[k - |a|];
      }
    }
  }

  lemma CountTail(xs: seq<Item>, i: nat)
    requires i < |xs|
    ensures Count(xs[i..]) == (1 + if xs[i].isDir && xs[i].hasChildren then Count(xs[i].children) else 0)
                              + Count(xs[i + 1..])
  {
    assert xs[i..][1..] == xs[i + 1..];
  }

  lemma {:induction false} TopAppend(a: seq<string>, b: seq<string>, prefix: string)
    ensures Top(a + b, prefix) == Top(a, prefix) + Top(b, prefix)
    decreases |a|
  {
    if a == [] {
      assert a + b == b;
    } else {
      assert (a + b)[1..] == a[1..] + b;
      TopAppend(a[1..], b, prefix);
    }
  }

  /** A tree line is one terminated line, starts with its prefix and is at its level. */
  lemma LineShape(prefix: string, last: bool, text: string)
    requires NoNewline(prefix) && NoNewline(text)
    ensures var l := Line(prefix, last, text);
            IsLine(l) && Terminated(l) && StartsWith(l, prefix) && AtLevel(l, prefix)
            && SplitLines(l) == [l] && Top([l], prefix) == [l]
  {
    var l := Line(prefix, last, text);
    var head := prefix + Connector(last) + " " + text;
    assert l == head + "\n";
    assert l[..|prefix|] == prefix;
    assert l[|prefix|] == Connector(last)[0];
    assert NoNewline(head) by {
      forall k | 0 <= k < |head| ensures head[k] != NL {
        if k < |prefix| {
          assert head[k] == prefix[k];
        } else if k >= |prefix| + 4 {
          assert head[k] == text[k - |prefix| - 4];
        }
      }
    }
    SplitOneLine(l, "");
    assert l + "" == l;
  }

  /** Lines indented below `prefix` are not at its level. */
  lemma {:induction false} BelowNotTop(ls: seq<string>, prefix: string, last: bool)
    requires AllStart(ls, prefix + Ext(last))
    ensures Top(ls, prefix) == [] && AllStart(ls, prefix)
    decreases |ls|
  {
    if ls != [] {
      var p := prefix + Ext(last);
      assert ls[0][..|p|] == p;
      assert ls[0][|prefix|] == p[|prefix|] == Ext(last)[0];
      assert ls[0][..|prefix|] == p[..|prefix|] == prefix;
      BelowNotTop(ls[1..], prefix, last);
      assert AllStart(ls[1..], prefix);
      forall k | 0 <= k < |ls| ensures StartsWith(ls[k], prefix) {
        if k > 0 {
          assert ls[k] == ls[1..][k - 1];
        }
      }
    }
  }

  lemma AllStartAppend(a: seq<string>, b: seq<string>, prefix: string)
    requires AllStart(a, prefix) && AllStart(b, prefix)
    ensures AllStart(a + b, prefix)
  {
    forall k | 0 <= k < |a + b| ensures StartsWith((a + b)[k], prefix) {
      if k >= |a| {
        assert (a + b)[k] == b[k - |a|];
      }
    }
  }

  /** Gluing texts that each end a line gives a text that ends a line. */
  lemma EndsLineAppend(a: string, b: string)
    requires a == "" || Terminated(a)
    requires b == "" || Terminated(b)
    ensures a + b == "" || Terminated(a + b)
  {
    if b == "" {
      assert a + b == a;
    } else {
      assert (a + b)[|a + b| - 1] == b[|b| - 1];
    }
  }

  /** A tree line in front of a drawn text: one more line, at this level. */
  lemma PrependLine(prefix: string, last: bool, text: string, rest: string)
    requires NoNewline(prefix) && NoNewline(text)
    requires rest == "" || Terminated(rest)
    requires AllStart(SplitLines(rest), prefix)
    ensures var l := Line(prefix, last, text);
            var ls := SplitLines(l + rest);
            Terminated(l + rest) && ls == [l] + SplitLines(rest) && AllStart(ls, prefix)
            && Top(ls, prefix) == [l] + Top(SplitLines(rest), prefix)
  {
    var l := Line(prefix, last, text);
    LineShape(prefix, last, text);
    SplitOneLine(l, rest);
    EndsLineAppend(l, rest);
    TopAppend([l], SplitLines(rest), prefix);
    AllStartAppend([l], SplitLines(rest), prefix);
  }

  /** Lines drawn one level deeper in front of a drawn text: more lines, none at this level. */
  lemma PrependBelow(prefix: string, last: bool, sub: string, rest: string)
    requires sub == "" || Terminated(sub)
    requires rest == "" || Terminated(rest)
    requires AllStart(SplitLines(sub), prefix + Ext(last))
    requires AllStart(SplitLines(rest), prefix)
    ensures var ls := SplitLines(sub + rest);
            (sub + rest == "" || Terminated(sub + rest)) && ls == SplitLines(sub) + SplitLines(rest)
            && AllStart(ls, prefix) && Top(ls, prefix) == Top(SplitLines(rest), prefix)
  {
    SplitAppend(sub, rest);
    EndsLineAppend(sub, rest);
    BelowNotTop(SplitLines(sub), prefix, last);
    TopAppend(SplitLines(sub), SplitLines(rest), prefix);
    AllStartAppend(SplitLines(sub), SplitLines(rest), prefix);
  }

  /** Two drawn texts at the same level, one after the other. */
  lemma JoinDrawn(a: string, b: string, prefix: string)
    requires a == "" || Terminated(a)
    requires b == "" || Terminated(b)
    requires AllStart(SplitLines(a), prefix) && AllStart(SplitLines(b), prefix)
    ensures var ls := SplitLines(a + b);
            (a + b == "" || Terminated(a + b)) && ls == SplitLines(a) + SplitLines(b)
            && AllStart(ls, prefix) && Top(ls, prefix) == Top(SplitLines(a), prefix) + Top(SplitLines(b), prefix)
  {
    SplitAppend(a, b);
    EndsLineAppend(a, b);
    TopAppend(SplitLines(a), SplitLines(b), prefix);
    AllStartAppend(SplitLines(a), SplitLines(b), prefix);
  }
}
