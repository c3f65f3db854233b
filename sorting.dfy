/**
 * Python's built-in `sorted`, as used on file lists: plain string order
 * (code point by code point, a proper prefix first) and a stable sort of
 * files by creation time, newest first.
 */
module Sorting {

  /** A file found on disk, with its creation time. */
  datatype FileRec = FileRec(path: string, ctime: int)

  // ---------------------------------------------------------------------
  // String order

  /** `a <= b` for Python strings. */
  predicate StrLeq(a: string, b: string)
  {
    if a == [] then true
    else if b == [] then false
    else if a[0] != b[0] then a[0] < b[0]
    else StrLeq(a[1..], b[1..])
  }

  lemma {:induction false} StrLeqTotal(a: string, b: string)
    ensures StrLeq(a, b) || StrLeq(b, a)
  {
    if a != [] && b != [] && a[0] == b[0] {
      StrLeqTotal(a[1..], b[1..]);
    }
  }

  lemma {:induction false} StrLeqTrans(a: string, b: string, c: string)
    requires StrLeq(a, b) && StrLeq(b, c)
    ensures StrLeq(a, c)
  {
    if a != [] && b != [] && c != [] && a[0] == b[0] && b[0] == c[0] {
      StrLeqTrans(a[1..], b[1..], c[1..]);
    }
  }

  lemma {:induction false} StrLeqAntisym(a: string, b: string)
    requires StrLeq(a, b) && StrLeq(b, a)
    ensures a == b
  {
    if a != [] && b != [] {
      StrLeqAntisym(a[1..], b[1..]);
      assert a == [a[0]] + a[1..] && b == [b[0]] + b[1..];
    }
  }

  predicate SortedStrings(s: seq<string>)
  {
    forall i, j :: 0 <= i < j < |s| ==> StrLeq(s[i], s[j])
  }

  /** `x` placed before the first entry that is not below it. */
  function InsertString(x: string, s: seq<string>): seq<string>
  {
    if s == [] then [x]
    else if StrLeq(x, s[0]) then [x] + s
    else [s[0]] + InsertString(x, s[1..])
  }

  lemma {:induction false} InsertStringProps(x: string, s: seq<string>)
    requires SortedStrings(s)
    ensures SortedStrings(InsertString(x, s))
    ensures multiset(InsertString(x, s)) == multiset(s) + multiset{x}
  {
    if s == [] {
    } else if StrLeq(x, s[0]) {
      forall j | 0 < j < |s| ensures StrLeq(x, s[j]) {
        StrLeqTrans(x, s[0], s[j]);
      }
    } else {
      StrLeqTotal(x, s[0]);
      InsertStringProps(x, s[1..]);
      var t := InsertString(x, s[1..]);
      assert s == [s[0]] + s[1..];
      forall j | 0 <= j < |t| ensures StrLeq(s[0], t[j]) {
        assert t[j] in multiset(s[1..]) + multiset{x};
        if t[j] != x {
          assert t[j] in s[1..];
        }
      }
    }
  }

  /** `sorted(xs)` for a list of strings. */
  function SortStrings(xs: seq<string>): seq<string>
  {
    if xs == [] then [] else InsertString(xs[0], SortStrings(xs[1..]))
  }

  /** `sorted` returns the same strings, in non-decreasing order. */
  lemma {:induction false} SortStringsCorrect(xs: seq<string>)
    ensures SortedStrings(SortStrings(xs))
    ensures multiset(SortStrings(xs)) == multiset(xs)
  {
    if xs != [] {
      SortStringsCorrect(xs[1..]);
      InsertStringProps(xs[0], SortStrings(xs[1..]));
      assert xs == [xs[0]] + xs[1..];
    }
  }

  /** Two sorted lists with the same entries are equal: `sorted` has one answer. */
  lemma {:induction false} SortedUnique(a: seq<string>, b: seq<string>)
    requires SortedStrings(a) && SortedStrings(b) && multiset(a) == multiset(b)
    ensures a == b
  {
    if a != [] {
      assert a[0] in multiset(b);
      SameHead(a, b);
      DropHead(a, b);
      SortedUnique(a[1..], b[1..]);
      assert a == [a[0]] + a[1..] && b == [b[0]] + b[1..];
    }
  }

  lemma SameHead(a: seq<string>, b: seq<string>)
    requires a != [] && b != []
    requires SortedStrings(a) && SortedStrings(b) && multiset(a) == multiset(b)
    ensures a[0] == b[0]
  {
    assert a[0] in multiset(b) && b[0] in multiset(a);
    var i :| 0 <= i < |b| && b[i] == a[0];
    var j :| 0 <= j < |a| && a[j] == b[0];
    StrLeqTotal(a[0], b[0]);
    assert StrLeq(b[0], a[0]) by {
      if i > 0 { assert StrLeq(b[0], b[i]); }
    }
    assert StrLeq(a[0], b[0]) by {
      if j > 0 { assert StrLeq(a[0], a[j]); }
    }
    StrLeqAntisym(a[0], b[0]);
  }

  lemma DropHead(a: seq<string>, b: seq<string>)
    requires a != [] && b != [] && a[0] == b[0] && multiset(a) == multiset(b)
    ensures multiset(a[1..]) == multiset(b[1..])
  {
    assert a == [a[0]] + a[1..];
    assert b == [b[0]] + b[1..];
    assert multiset(a) == multiset{a[0]} + multiset(a[1..]);
    assert multiset(b) == multiset{a[0]} + multiset(b[1..]);
    forall y ensures multiset(a[1..])[y] == multiset(b[1..])[y] {
      assert multiset(a)[y] == multiset(b)[y];
    }
  }

  // ---------------------------------------------------------------------
  // Newest first: sorted(files, key=getctime, reverse=True)

  predicate NewestFirst(s: seq<FileRec>)
  {
    forall i, j :: 0 <= i < j < |s| ==> s[i].ctime >= s[j].ctime
  }

  /** `f` placed before the first entry that is not newer, after those that are. */
  function InsertByCtime(f: FileRec, s: seq<FileRec>): seq<FileRec>
  {
    if s == [] then [f]
    else if f.ctime >= s[0].ctime then [f] + s
    else [s[0]] + InsertByCtime(f, s[1..])
  }

  /** No entry of `s` is newer than `c`. */
  predicate NoneNewer(s: seq<FileRec>, c: int)
  {
    forall j :: 0 <= j < |s| ==> s[j].ctime <= c
  }

  /** Inserting a file no newer than `c` keeps every entry no newer than `c`. */
  lemma {:induction false} InsertKeepsBound(f: FileRec, s: seq<FileRec>, c: int)
    requires NoneNewer(s, c) && f.ctime <= c
    ensures NoneNewer(InsertByCtime(f, s), c)
  {
    if s != [] && f.ctime < s[0].ctime {
      var t := InsertByCtime(f, s[1..]);
      InsertKeepsBound(f, s[1..], c);
      assert InsertByCtime(f, s) == [s[0]] + t;
    }
  }

  /** A newest-first list stays so behind an entry at least as new as all of it. */
  lemma ConsNewestFirst(x: FileRec, t: seq<FileRec>)
    requires NewestFirst(t) && NoneNewer(t, x.ctime)
    ensures NewestFirst([x] + t)
  {
    var r := [x] + t;
    forall i, j | 0 <= i < j < |r| ensures r[i].ctime >= r[j].ctime {
      assert r[j] == t[j - 1];
      if i > 0 {
        assert r[i] == t[i - 1];
      }
    }
  }

  /** Inserting keeps a newest-first list newest first and adds exactly `f`. */
  lemma {:induction false} InsertByCtimeProps(f: FileRec, s: seq<FileRec>)
    requires NewestFirst(s)
    ensures NewestFirst(InsertByCtime(f, s))
    ensures multiset(InsertByCtime(f, s)) == multiset(s) + multiset{f}
  {
    if s == [] {
    } else if f.ctime >= s[0].ctime {
      assert NoneNewer(s, f.ctime);
      ConsNewestFirst(f, s);
    } else {
      var t := InsertByCtime(f, s[1..]);
      InsertByCtimeProps(f, s[1..]);
      assert NewestFirst(s[1..]);
      assert NoneNewer(s[1..], s[0].ctime);
      InsertKeepsBound(f, s[1..], s[0].ctime);
      ConsNewestFirst(s[0], t);
      assert s == [s[0]] + s[1..];
      assert InsertByCtime(f, s) == [s[0]] + t;
    }
  }

  /** The files, newest first; files with equal times keep their order. */
  function SortNewestFirst(files: seq<FileRec>): seq<FileRec>
  {
    if files == [] then [] else InsertByCtime(files[0], SortNewestFirst(files[1..]))
  }

  /** Sorting by time returns the same files, newest first. */
  lemma {:induction false} SortNewestFirstCorrect(files: seq<FileRec>)
    ensures NewestFirst(SortNewestFirst(files))
    ensures multiset(SortNewestFirst(files)) == multiset(files)
  {
    if files != [] {
      SortNewestFirstCorrect(files[1..]);
      InsertByCtimeProps(files[0], SortNewestFirst(files[1..]));
      assert files == [files[0]] + files[1..];
    }
  }

  /**
   * `max(files, key=getctime)`: the position of the first file with the
   * largest creation time.
   */
  function Newest(files: seq<FileRec>): (r: nat)
    requires files != []
    ensures r < |files|
    ensures forall j :: 0 <= j < |files| ==> files[j].ctime <= files[r].ctime
    ensures forall j :: 0 <= j < r ==> files[j].ctime < files[r].ctime
  {
    if |files| == 1 then 0
    else
      var k := Newest(files[..|files| - 1]);
      assert forall j :: 0 <= j < |files| - 1 ==> files[..|files| - 1][j] == files[j];
      if files[|files| - 1].ctime > files[k].ctime then |files| - 1 else k
  }
}
