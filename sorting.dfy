// `slice::sort_by_key`: a stable sort on an integer key, and the
// `take(max as usize)` cap that the quiz selectors apply after sorting.
module Sorting {
  import opened Wrappers

  ghost predicate SortedBy<T>(s: seq<T>, key: T -> int)
  {
    forall i, j :: 0 <= i < j < |s| ==> key(s[i]) <= key(s[j])
  }

  ghost predicate NoDup<T>(s: seq<T>)
  {
    forall i, j :: 0 <= i < j < |s| ==> s[i] != s[j]
  }

  lemma {:induction false} NoDupCountsOnce<T>(s: seq<T>, x: T)
    requires NoDup(s)
    ensures multiset(s)[x] <= 1
  {
    if s != [] {
      assert s == [s[0]] + s[1..];
      assert NoDup(s[1..]) by {
        forall i, j | 0 <= i < j < |s[1..]| ensures s[1..][i] != s[1..][j] {
          assert s[1..][i] == s[i + 1] && s[1..][j] == s[j + 1];
        }
      }
      NoDupCountsOnce(s[1..], x);
      if x == s[0] {
        assert x !in s[1..];
      }
    }
  }

  /** Reordering a duplicate-free sequence keeps it duplicate-free. */
  lemma PermutationNoDup<T>(s: seq<T>, t: seq<T>)
    requires NoDup(s) && multiset(s) == multiset(t)
    ensures NoDup(t)
  {
    forall i, j | 0 <= i < j < |t| ensures t[i] != t[j] {
      if t[i] == t[j] {
        assert t == t[..j] + t[j..];
        assert t[i] in t[..j];
        assert t[j] in t[j..];
        assert multiset(t)[t[i]] == multiset(t[..j])[t[i]] + multiset(t[j..])[t[i]];
        NoDupCountsOnce(s, t[i]);
        assert false;
      }
    }
  }

  /** The elements of `s` whose key is `k`, in their original order. */
  function KeyClass<T>(s: seq<T>, key: T -> int, k: int): (r: seq<T>)
    ensures |r| <= |s|
  {
    if s == [] then []
    else if key(s[0]) == k then [s[0]] + KeyClass(s[1..], key, k)
    else KeyClass(s[1..], key, k)
  }

  /** Places `x` after every element whose key is not greater than its own. */
  function InsertBy<T>(s: seq<T>, x: T, key: T -> int): (r: seq<T>)
    ensures multiset(r) == multiset(s) + multiset{x}
    ensures |r| == |s| + 1
  {
    if s == [] then [x]
    else if key(x) < key(s[0]) then [x] + s
    else
      assert s == [s[0]] + s[1..];
      [s[0]] + InsertBy(s[1..], x, key)
  }

  /** Stable sort: insertion of each element, left to right. */
  function SortBy<T>(s: seq<T>, key: T -> int): (r: seq<T>)
    ensures multiset(r) == multiset(s)
    ensures |r| == |s|
  {
    if s == [] then []
    else
      assert s == s[..|s| - 1] + [s[|s| - 1]];
      InsertBy(SortBy(s[..|s| - 1], key), s[|s| - 1], key)
  }

  lemma {:induction false} InsertBySorted<T>(s: seq<T>, x: T, key: T -> int)
    requires SortedBy(s, key)
    ensures SortedBy(InsertBy(s, x, key), key)
  {
    if s != [] && key(x) >= key(s[0]) {
      InsertBySorted(s[1..], x, key);
      var r := InsertBy(s, x, key);
      var t := InsertBy(s[1..], x, key);
      assert r == [s[0]] + t;
      forall i | 0 <= i < |t| ensures key(s[0]) <= key(t[i]) {
        assert t[i] in multiset(t);
        assert t[i] in multiset(s[1..]) + multiset{x};
        if t[i] != x {
          assert t[i] in s[1..];
        }
      }
    }
  }

  /** The output of `SortBy` is ordered by the key. */
  lemma {:induction false} SortBySorted<T>(s: seq<T>, key: T -> int)
    ensures SortedBy(SortBy(s, key), key)
  {
    if s != [] {
      SortBySorted(s[..|s| - 1], key);
      InsertBySorted(SortBy(s[..|s| - 1], key), s[|s| - 1], key);
    }
  }

  lemma {:induction false} KeyClassAppend<T>(a: seq<T>, b: seq<T>, key: T -> int, k: int)
    ensures KeyClass(a + b, key, k) == KeyClass(a, key, k) + KeyClass(b, key, k)
  {
    if a == [] {
      assert a + b == b;
    } else {
      assert (a + b)[1..] == a[1..] + b;
      KeyClassAppend(a[1..], b, key, k);
    }
  }

  lemma {:induction false} InsertByClass<T>(s: seq<T>, x: T, key: T -> int, k: int)
    requires SortedBy(s, key)
    ensures KeyClass(InsertBy(s, x, key), key, k) == KeyClass(s + [x], key, k)
  {
    if s == [] {
    } else if key(x) < key(s[0]) {
      // every element of s has a key above key(x), so x and s never share a class
      KeyClassAppend(s, [x], key, k);
      KeyClassAppend([x], s, key, k);
      if key(x) == k {
        KeyClassNone(s, key, k);
      }
    } else {
      assert (s + [x])[1..] == s[1..] + [x];
      InsertByClass(s[1..], x, key, k);
    }
  }

  lemma {:induction false} KeyClassNone<T>(s: seq<T>, key: T -> int, k: int)
    requires forall i :: 0 <= i < |s| ==> key(s[i]) != k
    ensures KeyClass(s, key, k) == []
  {
    if s != [] {
      KeyClassNone(s[1..], key, k);
    }
  }

  /** Stability: elements with equal keys keep their relative order. */
  lemma {:induction false} SortByStable<T>(s: seq<T>, key: T -> int, k: int)
    ensures KeyClass(SortBy(s, key), key, k) == KeyClass(s, key, k)
  {
    if s != [] {
      var init := s[..|s| - 1];
      SortByStable(init, key, k);
      SortBySorted(init, key);
      InsertByClass(SortBy(init, key), s[|s| - 1], key, k);
      KeyClassAppend(SortBy(init, key), [s[|s| - 1]], key, k);
      KeyClassAppend(init, [s[|s| - 1]], key, k);
      assert init + [s[|s| - 1]] == s;
    }
  }

  /** `n as usize` for an `i32` value: a negative number wraps to a value
      of at least 2^63, above any vector length. */
  function AsUsize(n: int): (r: nat)
    requires -0x8000_0000 <= n < 0x8000_0000
    ensures n >= 0 ==> r == n
    ensures n < 0 ==> r >= 0x8000_0000_0000_0000
  {
    if n < 0 then n + 0x1_0000_0000_0000_0000 else n
  }

  /** `n as i32`: the low 32 bits read as a two's-complement number. */
  function AsI32(n: nat): (r: int)
    ensures -0x8000_0000 <= r < 0x8000_0000
    ensures n < 0x8000_0000 ==> r == n
  {
    var low := n % 0x1_0000_0000;
    if low < 0x8000_0000 then low else low - 0x1_0000_0000
  }

  /** How many elements `take(max.unwrap_or(len as i32) as usize)` keeps. */
  function TakeCount(max: Option<int>, len: nat): (r: nat)
    requires max.Some? ==> -0x8000_0000 <= max.value < 0x8000_0000
    ensures r <= len
    ensures max.None? && len < 0x8000_0000 ==> r == len
    ensures max.Some? && max.value < 0 && len < 0x8000_0000_0000_0000 ==> r == len
    ensures max.Some? && 0 <= max.value ==> r == if max.value < len then max.value else len
  {
    var cap := AsUsize(if max.Some? then max.value else AsI32(len));
    if cap < len then cap else len
  }
}
