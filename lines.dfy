/**
 * A text file as Python's `readlines()` sees it and `writelines()` rebuilds it:
 * a sequence of non-empty lines, every one of them ending in '\n' except
 * possibly the last. `SplitLines` and `Concat` are inverse to each other.
 */
module Lines {
  import opened Text

  /** The character `writelines` and `readlines` use as the line terminator. */
  const NL: char := '\n'

  predicate Terminated(line: string)
  {
    |line| > 0 && line[|line| - 1] == NL
  }

  /** One element of a `readlines()` result: non-empty, '\n' at most at its end. */
  predicate IsLine(line: string)
  {
    |line| > 0 && forall k :: 0 <= k < |line| - 1 ==> line[k] != NL
  }

  /** Every line is a proper line and all but the last are terminated. */
  predicate WellFormed(ls: seq<string>)
  {
    (forall k :: 0 <= k < |ls| ==> IsLine(ls[k])) &&
    (forall k :: 0 <= k < |ls| - 1 ==> Terminated(ls[k]))
  }

  /** `writelines(ls)`: the text is the lines written one after the other. */
  function Concat(ls: seq<string>): (t: string)
    decreases |ls|
  {
    if |ls| == 0 then "" else ls[0] + Concat(ls[1..])
  }

  /** The index of the first '\n' in `t`, or -1. */
  function FirstNewline(t: string): (r: int)
    ensures -1 <= r < |t|
    ensures r >= 0 ==> t[r] == NL
    decreases |t|
  {
    if |t| == 0 then -1
    else if t[0] == NL then 0
    else
      var k := FirstNewline(t[1..]);
      if k < 0 then -1 else k + 1
  }

  /** No '\n' comes before the one `FirstNewline` finds. */
  lemma {:induction false} FirstNewlineFirst(t: string)
    ensures forall k :: 0 <= k < |t| && (FirstNewline(t) < 0 || k < FirstNewline(t)) ==> t[k] != NL
    decreases |t|
  {
    if |t| > 0 && t[0] != NL {
      FirstNewlineFirst(t[1..]);
      forall k | 0 < k < |t| ensures t[k] == t[1..][k - 1] { }
    }
  }

  /** `readlines()` on a file whose text is `t`. */
  function SplitLines(t: string): (ls: seq<string>)
    ensures t == "" <==> ls == []
    decreases |t|
  {
    if |t| == 0 then []
    else
      var i := FirstNewline(t);
      if i < 0 then [t] else [t[..i + 1]] + SplitLines(t[i + 1..])
  }

  /** Writing back what `readlines()` returned reproduces the text. */
  lemma {:induction false} ConcatSplit(t: string)
    ensures Concat(SplitLines(t)) == t
    decreases |t|
  {
    if |t| > 0 {
      var i := FirstNewline(t);
      if i >= 0 {
        var head, rest := t[..i + 1], t[i + 1..];
        ConcatSplit(rest);
        SplitUnfold(t, i);
        ConcatCons(head, SplitLines(rest));
        SliceJoin(t, i + 1);
      }
    }
  }

  lemma SliceJoin<T>(t: seq<T>, j: nat)
    requires j <= |t|
    ensures t[..j] + t[j..] == t
  {
  }

  lemma ConcatCons(head: string, ls: seq<string>)
    ensures Concat([head] + ls) == head + Concat(ls)
  {
    assert ([head] + ls)[1..] == ls;
  }

  /** What `readlines()` returns is always well formed. */
  lemma {:induction false} SplitLinesWellFormed(t: string)
    ensures WellFormed(SplitLines(t))
    decreases |t|
  {
    if |t| > 0 {
      var i := FirstNewline(t);
      FirstNewlineFirst(t);
      if i >= 0 {
        SplitLinesWellFormed(t[i + 1..]);
        var ls := SplitLines(t);
        assert ls == [t[..i + 1]] + SplitLines(t[i + 1..]);
        assert IsLine(t[..i + 1]) && Terminated(t[..i + 1]);
      }
    }
  }

  lemma {:induction false} ConcatAppend(a: seq<string>, b: seq<string>)
    ensures Concat(a + b) == Concat(a) + Concat(b)
    decreases |a|
  {
    if |a| == 0 {
      assert a + b == b;
    } else {
      assert (a + b)[1..] == a[1..] + b;
      ConcatAppend(a[1..], b);
    }
  }

  lemma {:induction false} WellFormedSuffix(ls: seq<string>, i: nat)
    requires WellFormed(ls) && i <= |ls|
    ensures WellFormed(ls[i..])
  {
  }

  lemma ConcatSnoc(init: seq<string>, last: string)
    ensures Concat(init + [last]) == Concat(init) + last
  {
    ConcatAppend(init, [last]);
    ConcatSingle(last);
  }

  /** A text whose lines are none, or end with a terminated one, is empty or ends with a newline. */
  lemma TextEndsLine(t: string)
    requires SplitLines(t) == [] || Terminated(SplitLines(t)[|SplitLines(t)| - 1])
    ensures t == "" || Terminated(t)
  {
    if t != "" {
      LastLineTerminated(t);
    }
  }

  lemma WellFormedPrefix(ls: seq<string>, i: nat)
    requires WellFormed(ls) && i <= |ls|
    ensures WellFormed(ls[..i])
  {
  }

  lemma ConcatSingle(x: string)
    ensures Concat([x]) == x
  {
    assert [x][1..] == [];
  }

  /** The text of the lines before index `i` of well-formed lines, `i` inside
      the list, is empty or ends with a newline. */
  lemma PrefixText(ls: seq<string>, i: nat)
    requires WellFormed(ls) && i < |ls|
    ensures Concat(ls[..i]) == "" || Terminated(Concat(ls[..i]))
  {
    if i > 0 {
      var init := ls[..i - 1];
      assert ls[..i] == init + [ls[i - 1]];
      ConcatAppend(init, [ls[i - 1]]);
      ConcatSingle(ls[i - 1]);
    }
  }

  /** Three texts, the first two ending a line, split independently. */
  lemma SplitThree(x: string, mid: string, z: string)
    requires x == "" || Terminated(x)
    requires mid == "" || Terminated(mid)
    ensures SplitLines(x + mid + z) == SplitLines(x) + SplitLines(mid) + SplitLines(z)
  {
    calc {
      SplitLines(x + mid + z);
      { assert x + mid + z == x + (mid + z); }
      SplitLines(x + (mid + z));
      { SplitAppend(x, mid + z); }
      SplitLines(x) + SplitLines(mid + z);
      { SplitAppend(mid, z); }
      SplitLines(x) + (SplitLines(mid) + SplitLines(z));
    }
  }

  /** Writing well-formed lines `pre` and `post` around a text `mid` that ends
      a line, then reading back, gives `pre`, the lines of `mid`, and `post`. */
  lemma {:induction false} SplitAround(ls: seq<string>, i: nat, mid: string)
    requires WellFormed(ls) && i < |ls|
    requires mid == "" || Terminated(mid)
    ensures SplitLines(Concat(ls[..i]) + mid + Concat(ls[i..])) == ls[..i] + SplitLines(mid) + ls[i..]
  {
    PrefixText(ls, i);
    WellFormedPrefix(ls, i);
    WellFormedSuffix(ls, i);
    SplitThree(Concat(ls[..i]), mid, Concat(ls[i..]));
    SplitConcat(ls[..i]);
    SplitConcat(ls[i..]);
  }

  /** Reading back what `writelines` wrote gives the same lines. */
  lemma {:induction false} SplitConcat(ls: seq<string>)
    requires WellFormed(ls)
    ensures SplitLines(Concat(ls)) == ls
    decreases |ls|
  {
    if |ls| > 0 {
      var head, t := ls[0], Concat(ls);
      assert t == head + Concat(ls[1..]);
      if Terminated(head) {
        assert FirstNewline(t) == |head| - 1 by {
          FirstNewlineOfPrefix(head, Concat(ls[1..]));
        }
        assert t[..|head|] == head;
        assert t[|head|..] == Concat(ls[1..]);
        SplitConcat(ls[1..]);
      } else {
        assert |ls| == 1;
        assert Concat(ls[1..]) == "";
        assert t == head;
        assert FirstNewline(t) < 0;
      }
    }
  }

  lemma {:induction false} FirstNewlineOfPrefix(head: string, rest: string)
    requires IsLine(head) && Terminated(head)
    ensures FirstNewline(head + rest) == |head| - 1
  {
    var t := head + rest;
    var r := FirstNewline(t);
    FirstNewlineFirst(t);
    assert t[|head| - 1] == NL;
    assert forall k :: 0 <= k < |head| - 1 ==> t[k] != NL;
  }

  /** A single terminated line splits off the front of any text. */
  lemma SplitOneLine(line: string, rest: string)
    requires IsLine(line) && Terminated(line)
    ensures SplitLines(line + rest) == [line] + SplitLines(rest)
  {
    var t := line + rest;
    FirstNewlineOfPrefix(line, rest);
    SplitUnfold(t, |line| - 1);
    assert t[..|line|] == line;
    assert t[|line|..] == rest;
  }

  /** A text that ends a line splits independently of what follows it. */
  lemma {:induction false} SplitAppend(x: string, y: string)
    requires x == "" || Terminated(x)
    ensures SplitLines(x + y) == SplitLines(x) + SplitLines(y)
    decreases |x|
  {
    if |x| == 0 {
      assert x + y == y;
    } else {
      var i := FirstNewline(x);
      TerminatedNewline(x);
      SuffixTerminated(x, i + 1);
      SplitAppend(x[i + 1..], y);
      SplitAppendStep(x, y);
    }
  }

  /** A terminated text has a first newline. */
  lemma TerminatedNewline(x: string)
    requires Terminated(x)
    ensures FirstNewline(x) >= 0
  {
    FirstNewlineFirst(x);
  }

  /** The induction step of `SplitAppend`: the first line comes off both sides. */
  lemma SplitAppendStep(x: string, y: string)
    requires Terminated(x)
    requires SplitLines(x[FirstNewline(x) + 1..] + y) == SplitLines(x[FirstNewline(x) + 1..]) + SplitLines(y)
    ensures SplitLines(x + y) == SplitLines(x) + SplitLines(y)
  {
    var i := FirstNewline(x);
    SplitHead(x, y);
    SplitUnfold(x, i);
    ConsAppend(x[..i + 1], SplitLines(x[i + 1..]), SplitLines(y));
  }

  lemma ConsAppend<T>(h: T, a: seq<T>, b: seq<T>)
    ensures [h] + (a + b) == ([h] + a) + b
  {
  }

  /** The first line of a terminated text is also the first line of the text followed by more. */
  lemma SplitHead(x: string, y: string)
    requires Terminated(x)
    ensures FirstNewline(x) >= 0
    ensures SplitLines(x + y) == [x[..FirstNewline(x) + 1]] + SplitLines(x[FirstNewline(x) + 1..] + y)
  {
    var i := FirstNewline(x);
    FirstNewlineOfAppend(x, y);
    SliceAppend(x, y, i + 1);
    SplitUnfold(x + y, i);
  }

  lemma SliceAppend(x: string, y: string, j: nat)
    requires j <= |x|
    ensures (x + y)[..j] == x[..j] && (x + y)[j..] == x[j..] + y
  {
  }

  lemma SuffixTerminated(x: string, j: nat)
    requires Terminated(x) && j <= |x|
    ensures x[j..] == "" || Terminated(x[j..])
  {
    if j < |x| { assert x[j..][|x| - j - 1] == x[|x| - 1]; }
  }

  lemma SplitUnfold(t: string, i: int)
    requires t != "" && i >= 0 && FirstNewline(t) == i
    ensures SplitLines(t) == [t[..i + 1]] + SplitLines(t[i + 1..])
  {
  }

  lemma FirstNewlineOfAppend(x: string, y: string)
    requires Terminated(x)
    ensures FirstNewline(x) >= 0 && FirstNewline(x + y) == FirstNewline(x)
  {
    var i := FirstNewline(x);
    var t := x + y;
    FirstNewlineFirst(x);
    assert x[|x| - 1] == NL;
    assert t[i] == NL;
    forall k | 0 <= k < i ensures t[k] != NL { assert t[k] == x[k]; }
    FirstNewlineIs(t, i);
  }

  lemma FirstNewlineIs(t: string, i: nat)
    requires i < |t| && t[i] == NL
    requires forall k :: 0 <= k < i ==> t[k] != NL
    ensures FirstNewline(t) == i
  {
    FirstNewlineFirst(t);
  }

  /** The last line of a non-empty text is terminated exactly when the text ends in '\n'. */
  lemma {:induction false} LastLineTerminated(t: string)
    requires t != ""
    ensures Terminated(SplitLines(t)[|SplitLines(t)| - 1]) <==> t[|t| - 1] == NL
    decreases |t|
  {
    var i := FirstNewline(t);
    FirstNewlineFirst(t);
    if i >= 0 {
      var rest := t[i + 1..];
      SplitUnfold(t, i);
      if rest == "" {
        assert t[..i + 1] == t;
      } else {
        LastLineTerminated(rest);
        var R := SplitLines(rest);
        assert SplitLines(t)[|SplitLines(t)| - 1] == R[|R| - 1];
        assert t[|t| - 1] == rest[|rest| - 1];
      }
    }
  }

  /** `len(readlines())` against the number of '\n' characters in the text. */
  lemma {:induction false} LineCount(t: string)
    ensures |SplitLines(t)| == CountChar(t, NL) + (if t != "" && t[|t| - 1] != NL then 1 else 0)
    decreases |t|
  {
    if |t| > 0 {
      var i := FirstNewline(t);
      FirstNewlineFirst(t);
      if i >= 0 {
        var rest := t[i + 1..];
        HeadCount(t, i);
        LineCount(rest);
        SplitUnfold(t, i);
        if rest != "" {
          assert t[|t| - 1] == rest[|rest| - 1];
        }
      }
    }
  }

  lemma HeadCount(t: string, i: nat)
    requires i < |t| && FirstNewline(t) == i
    ensures CountChar(t, NL) == 1 + CountChar(t[i + 1..], NL)
  {
    var pre, tail := t[..i], t[i..];
    FirstNewlineFirst(t);
    assert t == pre + tail;
    CountCharAppend(pre, tail, NL);
    assert tail[0] == NL && tail[1..] == t[i + 1..];
    forall k | 0 <= k < |pre| ensures pre[k] != NL { assert pre[k] == t[k]; }
  }
}

/** The workspace as the file utilities see it: a map from path to file text. */
module Files {
  type Files = map<string, string>

  /** `os.path.join(working_dir, file_path) if working_dir else file_path` on a POSIX system. */
  function FullPath(workingDir: string, file: string): (r: string)
    ensures workingDir == "" || (|file| > 0 && file[0] == '/') ==> r == file
  {
    if workingDir == "" || (|file| > 0 && file[0] == '/') then file
    else if workingDir[|workingDir| - 1] == '/' then workingDir + file
    else workingDir + "/" + file
  }

  /** What a file utility returns, `(message, success)`, and the file system after it. */
  datatype Outcome = Outcome(message: string, success: bool, files: Files)
}
