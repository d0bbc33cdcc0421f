/** The two library sorts a directory scan applies: Rust's stable `sort_by` on the
    display string, and the stable `sort_by_key(|item| !item.is_dir())` after it.
    The second one has a two-valued key, so its result is the stable partition
    "directories, then files"; that is how it is written here. */
module Sorting {
  import opened Lex

  /** Every element's key is at most every later element's key. */
  ghost predicate SortedBy<T>(s: seq<T>, key: T -> string)
  {
    forall i, j :: 0 <= i < j < |s| ==> LexLe(key(s[i]), key(s[j]))
  }

  /** No file comes before a directory. */
  ghost predicate DirsBeforeFiles<T>(s: seq<T>, isDir: T -> bool)
  {
    forall i, j :: 0 <= i < j < |s| && isDir(s[j]) ==> isDir(s[i])
  }

  /** Inside the directories and inside the files, keys never decrease. */
  ghost predicate GroupsSortedBy<T>(s: seq<T>, key: T -> string, isDir: T -> bool)
  {
    forall i, j :: 0 <= i < j < |s| && isDir(s[i]) == isDir(s[j]) ==> LexLe(key(s[i]), key(s[j]))
  }

  function Negate<T>(p: T -> bool): T -> bool
  {
    x => !p(x)
  }

  /** Inserts `x` after every element whose key is not greater than its own. */
  function Insert<T>(x: T, s: seq<T>, key: T -> string): (r: seq<T>)
    ensures multiset(r) == multiset(s) + multiset{x}
    ensures |r| == |s| + 1
  {
    if s == [] then [x]
    else if LexLe(key(s[0]), key(x)) then
      assert s == [s[0]] + s[1..];
      [s[0]] + Insert(x, s[1..], key)
    else [x] + s
  }

  /** Stable insertion sort by `key`. */
  function SortBy<T>(s: seq<T>, key: T -> string): (r: seq<T>)
    ensures multiset(r) == multiset(s)
    ensures |r| == |s|
  {
    if s == [] then []
    else
      assert s == s[..|s| - 1] + [s[|s| - 1]];
      Insert(s[|s| - 1], SortBy(s[..|s| - 1], key), key)
  }

  /** The elements satisfying `p`, in their original order. */
  function Filter<T>(s: seq<T>, p: T -> bool): (r: seq<T>)
    ensures |r| <= |s|
    ensures forall j :: 0 <= j < |r| ==> p(r[j])
  {
    if s == [] then [] else (if p(s[0]) then [s[0]] else []) + Filter(s[1..], p)
  }

  /** The directories, then the files, each in their original order. */
  function DirsFirst<T>(s: seq<T>, isDir: T -> bool): (r: seq<T>)
    ensures multiset(r) == multiset(s)
  {
    FilterSplits(s, isDir);
    Filter(s, isDir) + Filter(s, Negate(isDir))
  }

  lemma {:induction false} FilterSplits<T>(s: seq<T>, p: T -> bool)
    ensures multiset(Filter(s, p)) + multiset(Filter(s, Negate(p))) == multiset(s)
  {
    if s != [] {
      FilterSplits(s[1..], p);
      var rest := multiset(Filter(s[1..], p)) + multiset(Filter(s[1..], Negate(p)));
      assert s == [s[0]] + s[1..];
      assert multiset(s) == multiset{s[0]} + multiset(s[1..]);
      if p(s[0]) {
        assert Filter(s, p) == [s[0]] + Filter(s[1..], p);
        assert Filter(s, Negate(p)) == Filter(s[1..], Negate(p));
      } else {
        assert Filter(s, p) == Filter(s[1..], p);
        assert Filter(s, Negate(p)) == [s[0]] + Filter(s[1..], Negate(p));
      }
    }
  }

  lemma {:induction false} InsertLowerBound<T>(b: string, x: T, s: seq<T>, key: T -> string)
    requires LexLe(b, key(x))
    requires forall k :: 0 <= k < |s| ==> LexLe(b, key(s[k]))
    ensures forall j :: 0 <= j < |Insert(x, s, key)| ==> LexLe(b, key(Insert(x, s, key)[j]))
  {
    if s != [] && LexLe(key(s[0]), key(x)) {
      InsertLowerBound(b, x, s[1..], key);
    }
  }

  lemma {:induction false} InsertSorted<T>(x: T, s: seq<T>, key: T -> string)
    requires SortedBy(s, key)
    ensures SortedBy(Insert(x, s, key), key)
  {
    if s == [] {
    } else if LexLe(key(s[0]), key(x)) {
      InsertSorted(x, s[1..], key);
      InsertLowerBound(key(s[0]), x, s[1..], key);
    } else {
      LexLeTotal(key(s[0]), key(x));
      forall j | 1 <= j < |s|
        ensures LexLe(key(x), key(s[j]))
      {
        LexLeTransitive(key(x), key(s[0]), key(s[j]));
      }
    }
  }

  /** The insertion sort sorts. */
  lemma {:induction false} SortBySorted<T>(s: seq<T>, key: T -> string)
    ensures SortedBy(SortBy(s, key), key)
  {
    if s != [] {
      SortBySorted(s[..|s| - 1], key);
      InsertSorted(s[|s| - 1], SortBy(s[..|s| - 1], key), key);
    }
  }

  lemma {:induction false} FilterLowerBound<T>(b: string, s: seq<T>, p: T -> bool, key: T -> string)
    requires forall k :: 0 <= k < |s| ==> LexLe(b, key(s[k]))
    ensures forall j :: 0 <= j < |Filter(s, p)| ==> LexLe(b, key(Filter(s, p)[j]))
  {
    if s != [] {
      FilterLowerBound(b, s[1..], p, key);
    }
  }

  /** Keeping some of the elements of a sorted sequence keeps it sorted. */
  lemma {:induction false} FilterSorted<T>(s: seq<T>, p: T -> bool, key: T -> string)
    requires SortedBy(s, key)
    ensures SortedBy(Filter(s, p), key)
  {
    if s != [] {
      FilterSorted(s[1..], p, key);
      FilterLowerBound(key(s[0]), s[1..], p, key);
    }
  }

  /** A property every element of `b` has holds for every element of a rearrangement of `b`. */
  lemma PermutedKeeps<T>(a: seq<T>, b: seq<T>, p: T -> bool)
    requires multiset(a) == multiset(b)
    requires forall k :: 0 <= k < |b| ==> p(b[k])
    ensures forall i :: 0 <= i < |a| ==> p(a[i])
  {
    forall i | 0 <= i < |a|
      ensures p(a[i])
    {
      assert a[i] in multiset(b);
    }
  }

  /** Partitioning a sorted sequence puts directories first and keeps each group sorted. */
  lemma PartitionOrder<T>(sorted: seq<T>, key: T -> string, isDir: T -> bool)
    requires SortedBy(sorted, key)
    ensures DirsBeforeFiles(DirsFirst(sorted, isDir), isDir)
    ensures GroupsSortedBy(DirsFirst(sorted, isDir), key, isDir)
  {
    var dirs, files := Filter(sorted, isDir), Filter(sorted, Negate(isDir));
    FilterSorted(sorted, isDir, key);
    FilterSorted(sorted, Negate(isDir), key);
    var r := DirsFirst(sorted, isDir);
    assert r == dirs + files;
    assert forall j :: 0 <= j < |files| ==> !isDir(files[j]);
    forall i, j | 0 <= i < j < |r|
      ensures isDir(r[j]) ==> isDir(r[i])
      ensures isDir(r[i]) == isDir(r[j]) ==> LexLe(key(r[i]), key(r[j]))
    {
      if j < |dirs| {
        assert r[i] == dirs[i] && r[j] == dirs[j];
      } else if i >= |dirs| {
        assert r[i] == files[i - |dirs|] && r[j] == files[j - |dirs|];
      } else {
        assert isDir(r[i]) && !isDir(r[j]);
      }
    }
  }

  /** The two passes together: a permutation of the input with directories first
      and each group ordered by key. */
  lemma TwoPassOrder<T>(s: seq<T>, key: T -> string, isDir: T -> bool)
    ensures multiset(DirsFirst(SortBy(s, key), isDir)) == multiset(s)
    ensures DirsBeforeFiles(DirsFirst(SortBy(s, key), isDir), isDir)
    ensures GroupsSortedBy(DirsFirst(SortBy(s, key), isDir), key, isDir)
  {
    SortBySorted(s, key);
    PartitionOrder(SortBy(s, key), key, isDir);
  }
}
