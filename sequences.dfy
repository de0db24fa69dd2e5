/** Ordering and windowing of result lists: `orderBy` / `Array.prototype.sort`
    as a sort under a comparator, and `skip` / `take` / `slice` as windows. */
module Sequences {
  import opened Common

  /** `le` is total and transitive: a comparator `sort` can rely on. */
  ghost predicate TotalPreorder<T(!new)>(le: (T, T) -> bool) {
    (forall a, b :: le(a, b) || le(b, a))
    && (forall a, b, c :: le(a, b) && le(b, c) ==> le(a, c))
  }

  predicate Sorted<T>(s: seq<T>, le: (T, T) -> bool) {
    forall i, j :: 0 <= i < j < |s| ==> le(s[i], s[j])
  }

  /** Insert `x` into a sorted list before the first element it does not follow. */
  function InsertSorted<T(!new)>(x: T, s: seq<T>, le: (T, T) -> bool): (r: seq<T>)
    requires TotalPreorder(le) && Sorted(s, le)
    ensures Sorted(r, le)
    ensures multiset(r) == multiset(s) + multiset{x}
  {
    if s == [] || le(x, s[0]) then
      assert forall j :: 0 <= j < |s| ==> le(x, s[j]) by {
        if s != [] {
          forall j | 0 <= j < |s| ensures le(x, s[j]) {
            if j > 0 {
              assert le(s[0], s[j]);
            }
          }
        }
      }
      [x] + s
    else
      var rest := InsertSorted(x, s[1..], le);
      assert le(s[0], x);
      assert s == [s[0]] + s[1..];
      assert forall k :: 0 <= k < |rest| ==> le(s[0], rest[k]) by {
        forall k | 0 <= k < |rest| ensures le(s[0], rest[k]) {
          assert rest[k] in multiset(rest);
          if rest[k] != x {
            assert rest[k] in multiset(s[1..]);
            var m :| 0 <= m < |s[1..]| && s[1..][m] == rest[k];
            assert le(s[0], s[m + 1]);
          }
        }
      }
      [s[0]] + rest
  }

  /** Insertion sort: a sorted permutation of `s`. */
  function SortBy<T(!new)>(s: seq<T>, le: (T, T) -> bool): (r: seq<T>)
    requires TotalPreorder(le)
    ensures Sorted(r, le)
    ensures multiset(r) == multiset(s)
    ensures |r| == |s|
  {
    if s == [] then []
    else
      assert s == [s[0]] + s[1..];
      var r := InsertSorted(s[0], SortBy(s[1..], le), le);
      assert |r| == |multiset(r)| == |multiset(s)| == |s|;
      r
  }

  /** `le` restricted to a key: `a` before `b` when their keys are in order. */
  lemma KeyOrderIsPreorder<T(!new), K(!new)>(key: T -> K, keyLe: (K, K) -> bool, le: (T, T) -> bool)
    requires TotalPreorder(keyLe)
    requires forall a, b :: le(a, b) == keyLe(key(a), key(b))
    ensures TotalPreorder(le)
  {
    forall a, b, c | le(a, b) && le(b, c) ensures le(a, c) {
      assert keyLe(key(a), key(b)) && keyLe(key(b), key(c));
    }
    forall a, b ensures le(a, b) || le(b, a) {
      assert keyLe(key(a), key(b)) || keyLe(key(b), key(a));
    }
  }

  /** `list.filter(p)`: the elements satisfying `p`, in order. */
  function Filter<T(!new)>(s: seq<T>, p: T -> bool): (r: seq<T>)
    ensures forall x :: x in r <==> x in s && p(x)
    ensures |r| <= |s|
  {
    if s == [] then [] else (if p(s[0]) then [s[0]] else []) + Filter(s[1..], p)
  }

  /** `list.map(f)`: `f` applied to each element, in order. */
  function MapSeq<A, B>(s: seq<A>, f: A -> B): (r: seq<B>)
    ensures |r| == |s|
    ensures forall k :: 0 <= k < |s| ==> r[k] == f(s[k])
  {
    seq(|s|, k requires 0 <= k < |s| => f(s[k]))
  }

  lemma FilterCons<T(!new)>(x: T, s: seq<T>, p: T -> bool)
    ensures multiset(Filter([x] + s, p)) == (if p(x) then multiset{x} else multiset{}) + multiset(Filter(s, p))
  {
    assert ([x] + s)[1..] == s;
  }

  function Min(a: int, b: int): int { if a <= b then a else b }

  function Max(a: int, b: int): int { if a >= b then a else b }

  /** `list.slice(0, n)`: the first `min(n, |s|)` elements. */
  function Prefix<T>(s: seq<T>, n: nat): (r: seq<T>)
    ensures |r| == Min(n, |s|)
    ensures forall k :: 0 <= k < |r| ==> r[k] == s[k]
  {
    if n >= |s| then s else s[..n]
  }

  /** The listing handlers' `take`: the requested limit (50 when absent) capped at 100.
      Only the upper cap is applied, so a negative limit passes through. */
  function ListTake(limit: Option<int>): (take: int)
    ensures take <= 100
    ensures limit.None? ==> take == 50
    ensures limit.Some? ==> take == limit.value || (limit.value > 100 && take == 100)
  {
    Min(limit.GetOr(50), 100)
  }

  /** A Prisma `skip` / `take` window over an ordered result. A non-negative `take`
      keeps at most `take` rows after the first `skip`; a negative `take` counts from
      the end, keeping at most `-take` rows before the last `skip`. */
  function Window<T>(s: seq<T>, skip: nat, take: int): (r: seq<T>)
    ensures take >= 0 ==> |r| == Min(take, |s| - Min(skip, |s|))
    ensures take >= 0 ==> forall k :: 0 <= k < |r| ==> r[k] == s[skip + k]
    ensures take < 0 ==> |r| == Min(-take, |s| - Min(skip, |s|))
    ensures take < 0 ==> forall k :: 0 <= k < |r| ==> r[k] == s[|s| - skip - |r| + k]
  {
    if take >= 0 then
      var start := Min(skip, |s|);
      Prefix(s[start..], take)
    else
      var stop := |s| - Min(skip, |s|);
      var start := Max(0, stop + take);
      s[start..stop]
  }

  /** `page` is what an `orderBy` with `skip` / `take` returns over the rows `all`:
      the window of some arrangement of `all` sorted by `le`. Rows that tie under
      `le` may come in either order; for an order without ties the page is unique. */
  ghost predicate SortedWindowOf<T(!new)>(page: seq<T>, all: seq<T>, skip: nat, take: int, le: (T, T) -> bool) {
    exists ordered: seq<T> :: Sorted(ordered, le) && multiset(ordered) == multiset(all) && page == Window(ordered, skip, take)
  }

  /** A window of an ordered list is ordered and holds only elements of the list. */
  lemma WindowSorted<T>(s: seq<T>, skip: nat, take: int, le: (T, T) -> bool)
    requires Sorted(s, le)
    ensures Sorted(Window(s, skip, take), le)
    ensures forall x :: x in Window(s, skip, take) ==> x in s
  {
    var r := Window(s, skip, take);
    var start := if take >= 0 then skip else |s| - skip - |r|;
    assert forall k :: 0 <= k < |r| ==> 0 <= start + k < |s| && r[k] == s[start + k];
    forall i, j | 0 <= i < j < |r| ensures le(r[i], r[j]) {
      assert le(s[start + i], s[start + j]);
    }
  }
}
