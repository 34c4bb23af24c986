/** Sequence operations behind the source's comprehensions, `sorted` and chunk concatenation. */
module Seqs {
  import opened Orders

  /** The comprehension `tuple(x for x in s if keep(x))`: order kept, duplicates kept. */
  function Filter<T(!new)>(s: seq<T>, keep: T -> bool): (r: seq<T>)
    ensures forall i :: 0 <= i < |r| ==> keep(r[i])
    ensures |r| <= |s|
  {
    if s == [] then []
    else
      assert s == [s[0]] + s[1..];
      if keep(s[0]) then [s[0]] + Filter(s[1..], keep) else Filter(s[1..], keep)
  }

  /** The filter keeps every occurrence of a kept element and no occurrence of a dropped one. */
  lemma {:induction false} FilterCount<T(!new)>(s: seq<T>, keep: T -> bool, x: T)
    ensures multiset(Filter(s, keep))[x] == if keep(x) then multiset(s)[x] else 0
  {
    if s != [] {
      assert s == [s[0]] + s[1..];
      FilterCount(s[1..], keep, x);
    }
  }

  /** Filtering distributes over concatenation: the filter preserves the input's order. */
  lemma {:induction false} FilterConcat<T(!new)>(a: seq<T>, b: seq<T>, keep: T -> bool)
    ensures Filter(a + b, keep) == Filter(a, keep) + Filter(b, keep)
  {
    if a == [] {
      assert a + b == b;
    } else {
      var ab := a + b;
      assert ab[0] == a[0] && ab[1..] == a[1..] + b;
      FilterConcat(a[1..], b, keep);
      if keep(a[0]) {
        assert Filter(ab, keep) == [a[0]] + Filter(a[1..] + b, keep);
        assert Filter(a, keep) == [a[0]] + Filter(a[1..], keep);
      } else {
        assert Filter(ab, keep) == Filter(a[1..] + b, keep);
        assert Filter(a, keep) == Filter(a[1..], keep);
      }
    }
  }

  ghost predicate Sorted<T>(s: seq<T>, le: (T, T) -> bool) {
    forall i, j :: 0 <= i < j < |s| ==> le(s[i], s[j])
  }

  function Insert<T(!new)>(x: T, s: seq<T>, le: (T, T) -> bool): (r: seq<T>)
    requires TotalOrder(le) && Sorted(s, le)
    ensures multiset(r) == multiset(s) + multiset{x}
    ensures Sorted(r, le)
  {
    if s == [] then [x]
    else if le(x, s[0]) then
      InsertAtHead(x, s, le);
      [x] + s
    else
      assert s == [s[0]] + s[1..];
      var rest := Insert(x, s[1..], le);
      InsertAfterHead(x, s, rest, le);
      [s[0]] + rest
  }

  /** When `x` is at most the head, it is at most everything after the head too. */
  lemma InsertAtHead<T(!new)>(x: T, s: seq<T>, le: (T, T) -> bool)
    requires TotalOrder(le) && Sorted(s, le) && s != [] && le(x, s[0])
    ensures Sorted([x] + s, le)
  {
    var t := [x] + s;
    forall i, j | 0 <= i < j < |t| ensures le(t[i], t[j]) {
      if i > 0 { assert t[i] == s[i - 1] && t[j] == s[j - 1]; }
      else if j > 1 { assert t[j] == s[j - 1] && le(s[0], s[j - 1]); }
    }
  }

  /** When `x` goes after the head, the head stays below everything inserted behind it. */
  lemma InsertAfterHead<T(!new)>(x: T, s: seq<T>, rest: seq<T>, le: (T, T) -> bool)
    requires TotalOrder(le) && Sorted(s, le) && s != [] && !le(x, s[0])
    requires Sorted(rest, le) && multiset(rest) == multiset(s[1..]) + multiset{x}
    ensures Sorted([s[0]] + rest, le)
  {
    assert le(s[0], x);
    forall k | 0 <= k < |rest| ensures le(s[0], rest[k]) {
      assert rest[k] in multiset(rest);
      if rest[k] != x {
        assert rest[k] in s[1..];
        var j :| 0 <= j < |s[1..]| && s[1..][j] == rest[k];
        assert s[j + 1] == rest[k];
      }
    }
    var t := [s[0]] + rest;
    forall i, j | 0 <= i < j < |t| ensures le(t[i], t[j]) {
      if i > 0 { assert t[i] == rest[i - 1] && t[j] == rest[j - 1]; }
      else { assert t[j] == rest[j - 1]; }
    }
  }

  /** Python's `sorted`: a sorted permutation of `s` under the total order `le`. */
  function Sort<T(!new)>(s: seq<T>, le: (T, T) -> bool): (r: seq<T>)
    requires TotalOrder(le)
    ensures multiset(r) == multiset(s)
    ensures Sorted(r, le)
  {
    if s == [] then []
    else
      assert s == [s[0]] + s[1..];
      Insert(s[0], Sort(s[1..], le), le)
  }

  /** The first element of a sorted sequence is below every element of it. */
  lemma SortedHeadLeast<T>(s: seq<T>, le: (T, T) -> bool, x: T)
    requires Sorted(s, le) && x in s && le(x, x)
    ensures le(s[0], x)
  {
    var i :| 0 <= i < |s| && s[i] == x;
    if i > 0 { assert le(s[0], s[i]); }
  }

  /** Two sorted sequences with the same elements start with the same element. */
  lemma SortedSameHead<T(!new)>(a: seq<T>, b: seq<T>, le: (T, T) -> bool)
    requires TotalOrder(le)
    requires Sorted(a, le) && Sorted(b, le)
    requires multiset(a) == multiset(b) && a != []
    ensures b != [] && a[0] == b[0]
  {
    assert a[0] in multiset(b);
    assert b[0] in multiset(a);
    assert le(a[0], a[0]) && le(b[0], b[0]);
    SortedHeadLeast(b, le, a[0]);
    SortedHeadLeast(a, le, b[0]);
  }

  lemma SortedTail<T>(s: seq<T>, le: (T, T) -> bool)
    requires Sorted(s, le) && s != []
    ensures Sorted(s[1..], le)
  {
    forall i, j | 0 <= i < j < |s| - 1 ensures le(s[1..][i], s[1..][j]) {
      assert s[1..][i] == s[i + 1] && s[1..][j] == s[j + 1];
    }
  }

  lemma TailMultiset<T>(a: seq<T>, b: seq<T>)
    requires multiset(a) == multiset(b) && a != [] && b != [] && a[0] == b[0]
    ensures multiset(a[1..]) == multiset(b[1..])
  {
    assert a == [a[0]] + a[1..] && b == [b[0]] + b[1..];
    calc {
      multiset(a[1..]);
      multiset(a) - multiset{a[0]};
      multiset(b) - multiset{b[0]};
      multiset(b[1..]);
    }
  }

  /** Under a total order there is only one sorted arrangement of a multiset. */
  lemma {:induction false} SortedUnique<T(!new)>(a: seq<T>, b: seq<T>, le: (T, T) -> bool)
    requires TotalOrder(le)
    requires Sorted(a, le) && Sorted(b, le)
    requires multiset(a) == multiset(b)
    ensures a == b
  {
    if a != [] {
      SortedSameHead(a, b, le);
      TailMultiset(a, b);
      SortedTail(a, le);
      SortedTail(b, le);
      SortedUnique(a[1..], b[1..], le);
      assert a == [a[0]] + a[1..] && b == [b[0]] + b[1..];
    } else {
      assert |multiset(b)| == 0;
    }
  }

  /** All chunks concatenated in order. */
  function Flatten<T>(chunks: seq<seq<T>>): seq<T> {
    if chunks == [] then [] else Flatten(chunks[..|chunks| - 1]) + chunks[|chunks| - 1]
  }

  /** Element `i` of block `k` sits right after everything the blocks before it flatten to. */
  lemma {:induction false} FlattenAt<T>(bs: seq<seq<T>>, k: nat, i: nat)
    requires k < |bs| && i < |bs[k]|
    ensures |Flatten(bs[..k])| + i < |Flatten(bs)|
    ensures Flatten(bs)[|Flatten(bs[..k])| + i] == bs[k][i]
  {
    var n := |bs| - 1;
    var front := bs[..n];
    assert Flatten(bs) == Flatten(front) + bs[n];
    if k < n {
      FlattenAt(front, k, i);
      assert front[k] == bs[k] && front[..k] == bs[..k];
    }
  }

  /** Blocks of equal width `w` flatten to `w` elements per block. */
  lemma {:induction false} FlattenLength<T>(bs: seq<seq<T>>, w: nat)
    requires forall m :: 0 <= m < |bs| ==> |bs[m]| == w
    ensures |Flatten(bs)| == w * |bs|
  {
    if bs != [] {
      var n := |bs| - 1;
      FlattenLength(bs[..n], w);
      assert w * |bs| == w * n + w;
    }
  }
}
