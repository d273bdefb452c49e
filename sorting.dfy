/**
  * `[...s].sort((a, b) => key(b) - key(a))`: JavaScript's `Array.prototype.sort` is stable, so
  * the result orders by descending key and keeps ties in input order. It is modelled as an
  * insertion sort that places each later element after every element whose key is at least
  * its own.
  */
module Sorting {
  import opened Sequences

  ghost predicate NonIncreasing<T>(s: seq<T>, key: T -> int) {
    forall i, j :: 0 <= i < j < |s| ==> key(s[i]) >= key(s[j])
  }

  ghost predicate NonDecreasing<T>(s: seq<T>, key: T -> int) {
    forall i, j :: 0 <= i < j < |s| ==> key(s[i]) <= key(s[j])
  }

  function InsertDesc<T>(x: T, s: seq<T>, key: T -> int): (r: seq<T>)
    ensures |r| == |s| + 1
    ensures multiset(r) == multiset(s) + multiset{x}
  {
    if s == [] then [x]
    else if key(s[0]) >= key(x) then
      var r := [s[0]] + InsertDesc(x, s[1..], key);
      assert s == [s[0]] + s[1..];
      r
    else [x] + s
  }

  function SortDesc<T>(s: seq<T>, key: T -> int): (r: seq<T>)
    ensures |r| == |s|
    ensures multiset(r) == multiset(s)
  {
    if s == [] then []
    else
      var r := InsertDesc(s[|s| - 1], SortDesc(s[..|s| - 1], key), key);
      assert s == s[..|s| - 1] + [s[|s| - 1]];
      r
  }

  lemma {:induction false} InsertDescSorted<T>(x: T, s: seq<T>, key: T -> int)
    requires NonIncreasing(s, key)
    ensures NonIncreasing(InsertDesc(x, s, key), key)
    decreases |s|
  {
    if s != [] && key(s[0]) >= key(x) {
      var t := InsertDesc(x, s[1..], key);
      InsertDescSorted(x, s[1..], key);
      NonIncreasingTail(s, key);
      InsertDescMembers(x, s[1..], key);
      forall j | 0 <= j < |t| ensures key(s[0]) >= key(t[j]) {
        assert t[j] in t;
        if t[j] != x {
          var i :| 0 <= i < |s[1..]| && s[1..][i] == t[j];
          assert s[i + 1] == t[j];
        }
      }
      InsertDescUnfold(x, s, key);
      ConsSorted(s[0], t, key);
    }
  }

  lemma InsertDescMembers<T>(x: T, s: seq<T>, key: T -> int)
    ensures forall y :: y in InsertDesc(x, s, key) ==> y == x || y in s
  {
    forall y | y in InsertDesc(x, s, key) ensures y == x || y in s {
      assert y in multiset(InsertDesc(x, s, key));
    }
  }

  lemma ConsSorted<T>(h: T, t: seq<T>, key: T -> int)
    requires NonIncreasing(t, key)
    requires forall j :: 0 <= j < |t| ==> key(h) >= key(t[j])
    ensures NonIncreasing([h] + t, key)
  {
    var r := [h] + t;
    forall i, j | 0 <= i < j < |r| ensures key(r[i]) >= key(r[j]) {
      assert r[j] == t[j - 1];
      if i > 0 {
        assert r[i] == t[i - 1];
      }
    }
  }

  /** The sorted sequence is ordered by non-increasing key. */
  lemma {:induction false} SortDescSorted<T>(s: seq<T>, key: T -> int)
    ensures NonIncreasing(SortDesc(s, key), key)
  {
    if s != [] {
      SortDescSorted(s[..|s| - 1], key);
      InsertDescSorted(s[|s| - 1], SortDesc(s[..|s| - 1], key), key);
    }
  }

  lemma NonIncreasingTail<T>(s: seq<T>, key: T -> int)
    requires s != [] && NonIncreasing(s, key)
    ensures NonIncreasing(s[1..], key)
    ensures forall i :: 0 <= i < |s| ==> key(s[i]) <= key(s[0])
  {
    var t := s[1..];
    forall i, j | 0 <= i < j < |t| ensures key(t[i]) >= key(t[j]) {
      assert t[i] == s[i + 1] && t[j] == s[j + 1];
    }
  }

  lemma {:induction false} InsertDescStable<T>(x: T, s: seq<T>, key: T -> int, v: int, p: T -> bool)
    requires NonIncreasing(s, key)
    requires forall y :: p(y) == (key(y) == v)
    ensures Filter(InsertDesc(x, s, key), p) == Filter(s, p) + Filter([x], p)
    decreases |s|
  {
    if s == [] {
      assert InsertDesc(x, s, key) == [x];
    } else if key(s[0]) >= key(x) {
      var h, t := [s[0]], s[1..];
      NonIncreasingTail(s, key);
      InsertDescStable(x, t, key, v, p);
      InsertAfterHead(x, s, key, p);
    } else {
      InsertAtFront(x, s, key, v, p);
    }
  }

  lemma InsertAfterHead<T>(x: T, s: seq<T>, key: T -> int, p: T -> bool)
    requires s != [] && key(s[0]) >= key(x)
    requires Filter(InsertDesc(x, s[1..], key), p) == Filter(s[1..], p) + Filter([x], p)
    ensures Filter(InsertDesc(x, s, key), p) == Filter(s, p) + Filter([x], p)
  {
    var h, t := [s[0]], s[1..];
    var ins := InsertDesc(x, t, key);
    InsertDescUnfold(x, s, key);
    FilterConcat(h, ins, p);
    assert s == h + t;
    FilterConcat(h, t, p);
    AppendAssoc(Filter(h, p), Filter(t, p), Filter([x], p));
  }

  lemma InsertDescUnfold<T>(x: T, s: seq<T>, key: T -> int)
    requires s != [] && key(s[0]) >= key(x)
    ensures InsertDesc(x, s, key) == [s[0]] + InsertDesc(x, s[1..], key)
  {
  }

  lemma InsertAtFront<T>(x: T, s: seq<T>, key: T -> int, v: int, p: T -> bool)
    requires s != [] && key(s[0]) < key(x) && NonIncreasing(s, key)
    requires forall y :: p(y) == (key(y) == v)
    ensures Filter(InsertDesc(x, s, key), p) == Filter(s, p) + Filter([x], p)
  {
    InsertDescFront(x, s, key);
    FilterConcat([x], s, p);
    FilterSingle(x, p);
    if p(x) {
      NoneBelowKey(s, key, v, p);
    }
  }

  lemma InsertDescFront<T>(x: T, s: seq<T>, key: T -> int)
    requires s != [] && key(s[0]) < key(x)
    ensures InsertDesc(x, s, key) == [x] + s
  {
  }

  /** No element of an ordered sequence whose head is below `v` has key `v`. */
  lemma NoneBelowKey<T>(s: seq<T>, key: T -> int, v: int, p: T -> bool)
    requires s != [] && key(s[0]) < v && NonIncreasing(s, key)
    requires forall y :: p(y) == (key(y) == v)
    ensures Filter(s, p) == []
  {
    NonIncreasingTail(s, key);
    forall i | 0 <= i < |s| ensures !p(s[i]) {
      assert key(s[i]) <= key(s[0]);
    }
    FilterNone(s, p);
  }

  /**
    * Stability: for every key value `v`, the elements carrying it (those `p` selects) appear in
    * the sorted sequence in the same order as in the input.
    */
  lemma {:induction false} SortDescStable<T>(s: seq<T>, key: T -> int, v: int, p: T -> bool)
    requires forall y :: p(y) == (key(y) == v)
    ensures Filter(SortDesc(s, key), p) == Filter(s, p)
  {
    if s != [] {
      var init, x := s[..|s| - 1], s[|s| - 1];
      SortDescStable(init, key, v, p);
      SortDescSorted(init, key);
      InsertDescStable(x, SortDesc(init, key), key, v, p);
      FilterSingle(x, p);
    }
  }

  lemma {:induction false} FilterSorted<T>(s: seq<T>, key: T -> int, p: T -> bool)
    requires NonIncreasing(s, key)
    ensures NonIncreasing(Filter(s, p), key)
  {
    if s != [] {
      var init := s[..|s| - 1];
      FilterSorted(init, key, p);
      var f := Filter(init, p);
      FilterMembers(init, p);
      forall i | 0 <= i < |f| ensures key(f[i]) >= key(s[|s| - 1]) {
        assert f[i] in init;
      }
    }
  }

  /** Every element of an ordered prefix has a key at least that of every element after it. */
  lemma SplitOrdered<T>(s: seq<T>, m: nat, key: T -> int)
    requires NonIncreasing(s, key) && m <= |s|
    ensures NonIncreasing(s[..m], key) && NonIncreasing(s[m..], key)
    ensures forall x, y :: x in s[m..] && y in s[..m] ==> key(x) <= key(y)
  {
    forall x, y | x in s[m..] && y in s[..m] ensures key(x) <= key(y) {
      var j :| 0 <= j < |s[m..]| && s[m..][j] == x;
      var i :| 0 <= i < m && s[..m][i] == y;
      assert s[i] == y && s[m + j] == x;
    }
    assert NonIncreasing(s[..m], key) by {
      forall i, j | 0 <= i < j < m ensures key(s[..m][i]) >= key(s[..m][j]) {
        assert s[..m][i] == s[i] && s[..m][j] == s[j];
      }
    }
    assert NonIncreasing(s[m..], key) by {
      forall i, j | 0 <= i < j < |s| - m ensures key(s[m..][i]) >= key(s[m..][j]) {
        assert s[m..][i] == s[m + i] && s[m..][j] == s[m + j];
      }
    }
  }

  /**
    * `SortDesc(s).slice(0, k)` holds the k largest keys: it is ordered, drawn from `s`, and no
    * element left out has a larger key than any element taken.
    */
  lemma TopKAreLargest<T>(s: seq<T>, key: T -> int, k: nat)
    ensures var t := Take(SortDesc(s, key), k);
      |t| == (if |s| < k then |s| else k) &&
      NonIncreasing(t, key) && multiset(t) <= multiset(s) &&
      forall x, y :: x in multiset(s) - multiset(t) && y in t ==> key(x) <= key(y)
  {
    var sorted := SortDesc(s, key);
    SortDescSorted(s, key);
    var t := Take(sorted, k);
    SplitOrdered(sorted, |t|, key);
    SplitMultiset(sorted, |t|);
  }

  /**
    * `Reverse(f.slice(-k))` of an ordered `f` holds the k smallest keys of `f`, in non-decreasing
    * order, and no element left out has a smaller key than any element taken.
    */
  lemma BottomKAreSmallest<T>(f: seq<T>, key: T -> int, k: nat)
    requires NonIncreasing(f, key)
    ensures var l := Reverse(TakeLast(f, k));
      |l| == (if |f| < k then |f| else k) &&
      NonDecreasing(l, key) && multiset(l) <= multiset(f) &&
      forall x, y :: x in multiset(f) - multiset(l) && y in l ==> key(x) >= key(y)
  {
    var b := TakeLast(f, k);
    var l := Reverse(b);
    ReverseMultiset(b);
    var m := |f| - |b|;
    SplitOrdered(f, m, key);
    assert f[m..] == b;
    SplitMultiset(f, m);
    ReverseOrdered(b, key);
  }

  lemma SplitMultiset<T>(f: seq<T>, m: nat)
    requires m <= |f|
    ensures multiset(f[m..]) <= multiset(f) && multiset(f[..m]) <= multiset(f)
    ensures multiset(f) - multiset(f[m..]) == multiset(f[..m])
    ensures multiset(f) - multiset(f[..m]) == multiset(f[m..])
  {
    assert f == f[..m] + f[m..];
    assert multiset(f) == multiset(f[..m]) + multiset(f[m..]);
  }

  lemma ReverseOrdered<T>(b: seq<T>, key: T -> int)
    requires NonIncreasing(b, key)
    ensures NonDecreasing(Reverse(b), key)
    ensures forall y :: y in Reverse(b) ==> y in b
  {
    var l := Reverse(b);
    forall y | y in l ensures y in b {
      var i :| 0 <= i < |l| && l[i] == y;
      assert b[|b| - 1 - i] == y;
    }
    forall i, j | 0 <= i < j < |l| ensures key(l[i]) <= key(l[j]) {
      assert l[i] == b[|b| - 1 - i] && l[j] == b[|b| - 1 - j];
    }
  }
}
