/** In-memory stand-in for a database table: rows keyed by ids that a counter issues,
    so that ascending id order is insertion (creation) order. */
module Tables {
  import opened Common

  type Id = nat

  datatype Table<T> = Table(rows: map<Id, T>, next: Id)

  /** Every stored id was issued by the counter. */
  predicate WellFormed<T>(t: Table<T>) {
    forall id :: id in t.rows ==> id < t.next
  }

  function Empty<T>(): Table<T> {
    Table(map[], 0)
  }

  /** Store `v` under a fresh id (the current counter value). */
  function Insert<T>(t: Table<T>, v: T): Table<T> {
    Table(t.rows[t.next := v], t.next + 1)
  }

  /** Replace the row stored under `id`. */
  function Put<T>(t: Table<T>, id: Id, v: T): Table<T> {
    Table(t.rows[id := v], t.next)
  }

  /** Delete the row stored under `id`. */
  function Remove<T>(t: Table<T>, id: Id): Table<T> {
    Table(t.rows - {id}, t.next)
  }

  /** The rows not satisfying `p`. */
  function KeepRows<T>(rows: map<Id, T>, p: T -> bool): (r: map<Id, T>)
    ensures forall id :: id in r <==> id in rows && !p(rows[id])
    ensures forall id :: id in r ==> r[id] == rows[id]
  {
    map id | id in rows && !p(rows[id]) :: rows[id]
  }

  /** Delete every row satisfying `p` (Prisma's `deleteMany`, or a cascade). */
  function RemoveWhere<T>(t: Table<T>, p: T -> bool): Table<T> {
    Table(KeepRows(t.rows, p), t.next)
  }

  lemma InsertWellFormed<T>(t: Table<T>, v: T)
    requires WellFormed(t)
    ensures WellFormed(Insert(t, v)) && t.next !in t.rows
  {
  }

  /** Sum of `w` over the rows stored under ids below `n`. */
  function SumBelow<T>(rows: map<Id, T>, w: T -> int, n: nat): int {
    if n == 0 then 0
    else SumBelow(rows, w, n - 1) + (if n - 1 in rows then w(rows[n - 1]) else 0)
  }

  /** Sum of `w` over all rows of a table (Prisma's `reduce` over a `findMany`). */
  function Sum<T>(t: Table<T>, w: T -> int): int {
    SumBelow(t.rows, w, t.next)
  }

  /** Two row maps with the same rows below `n` have the same sum below `n`. */
  lemma {:induction false} SumBelowAgree<T>(a: map<Id, T>, b: map<Id, T>, w: T -> int, n: nat)
    requires forall id :: id < n ==> (id in a <==> id in b)
    requires forall id :: id < n && id in a ==> w(a[id]) == w(b[id])
    ensures SumBelow(a, w, n) == SumBelow(b, w, n)
  {
    if n > 0 {
      SumBelowAgree(a, b, w, n - 1);
    }
  }

  /** Two weights that agree on the rows below `n` have the same sum below `n`. */
  lemma {:induction false} SumBelowSameWeights<T>(rows: map<Id, T>, w: T -> int, v: T -> int, n: nat)
    requires forall id :: id < n && id in rows ==> w(rows[id]) == v(rows[id])
    ensures SumBelow(rows, w, n) == SumBelow(rows, v, n)
  {
    if n > 0 {
      SumBelowSameWeights(rows, w, v, n - 1);
    }
  }

  /** Rows that weigh nothing can be dropped without changing the sum. */
  lemma {:induction false} SumBelowDropWeightless<T>(rows: map<Id, T>, p: T -> bool, w: T -> int, n: nat)
    requires forall id :: id in rows && p(rows[id]) ==> w(rows[id]) == 0
    ensures SumBelow(KeepRows(rows, p), w, n) == SumBelow(rows, w, n)
  {
    if n > 0 {
      SumBelowDropWeightless(rows, p, w, n - 1);
    }
  }

  /** Changing one row changes the sum by the difference of its weights. */
  lemma {:induction false} SumBelowPut<T>(rows: map<Id, T>, w: T -> int, n: nat, id: Id, v: T)
    requires id in rows && id < n
    ensures SumBelow(rows[id := v], w, n) == SumBelow(rows, w, n) - w(rows[id]) + w(v)
  {
    if n - 1 == id {
      SumBelowAgree(rows[id := v], rows, w, n - 1);
    } else {
      SumBelowPut(rows, w, n - 1, id, v);
    }
  }

  lemma {:induction false} SumBelowRemove<T>(rows: map<Id, T>, w: T -> int, n: nat, id: Id)
    requires id in rows && id < n
    ensures SumBelow(rows - {id}, w, n) == SumBelow(rows, w, n) - w(rows[id])
  {
    if n - 1 == id {
      SumBelowAgree(rows - {id}, rows, w, n - 1);
    } else {
      SumBelowRemove(rows, w, n - 1, id);
    }
  }

  lemma {:induction false} SumBelowZero<T>(rows: map<Id, T>, w: T -> int, n: nat)
    requires forall id :: id in rows && id < n ==> w(rows[id]) == 0
    ensures SumBelow(rows, w, n) == 0
  {
    if n > 0 {
      SumBelowZero(rows, w, n - 1);
    }
  }

  lemma SumInsert<T>(t: Table<T>, w: T -> int, v: T)
    requires WellFormed(t)
    ensures Sum(Insert(t, v), w) == Sum(t, w) + w(v)
  {
    SumBelowAgree(t.rows[t.next := v], t.rows, w, t.next);
  }

  lemma SumPut<T>(t: Table<T>, w: T -> int, id: Id, v: T)
    requires WellFormed(t) && id in t.rows
    ensures Sum(Put(t, id, v), w) == Sum(t, w) - w(t.rows[id]) + w(v)
  {
    SumBelowPut(t.rows, w, t.next, id, v);
  }

  lemma SumRemove<T>(t: Table<T>, w: T -> int, id: Id)
    requires WellFormed(t) && id in t.rows
    ensures Sum(Remove(t, id), w) == Sum(t, w) - w(t.rows[id])
  {
    SumBelowRemove(t.rows, w, t.next, id);
  }

  /** Deleting rows that weigh nothing leaves the sum unchanged. */
  lemma SumRemoveWhere<T>(t: Table<T>, p: T -> bool, w: T -> int)
    requires forall id :: id in t.rows && p(t.rows[id]) ==> w(t.rows[id]) == 0
    ensures Sum(RemoveWhere(t, p), w) == Sum(t, w)
  {
    SumBelowDropWeightless(t.rows, p, w, t.next);
  }

  /** After deleting every row that has weight, the sum is zero. */
  lemma SumRemoveWhereAll<T>(t: Table<T>, p: T -> bool, w: T -> int)
    requires forall id :: id in t.rows && !p(t.rows[id]) ==> w(t.rows[id]) == 0
    ensures Sum(RemoveWhere(t, p), w) == 0
  {
    SumBelowZero(KeepRows(t.rows, p), w, t.next);
  }

  /** A sum of rows that all weigh nothing is zero. */
  lemma SumZero<T>(t: Table<T>, w: T -> int)
    requires forall id :: id in t.rows && id < t.next ==> w(t.rows[id]) == 0
    ensures Sum(t, w) == 0
  {
    SumBelowZero(t.rows, w, t.next);
  }

  /** The lowest id below `n` whose row satisfies `p` (Prisma's `findFirst`). */
  function FirstBelow<T>(rows: map<Id, T>, p: T -> bool, n: nat): (r: Option<Id>)
    ensures r.Some? ==> r.value < n && r.value in rows && p(rows[r.value])
    ensures r.Some? ==> forall id :: id < r.value && id in rows ==> !p(rows[id])
    ensures r.None? <==> forall id :: id < n && id in rows ==> !p(rows[id])
  {
    if n == 0 then None
    else
      match FirstBelow(rows, p, n - 1)
      case Some(i) => Some(i)
      case None => if n - 1 in rows && p(rows[n - 1]) then Some(n - 1) else None
  }

  function First<T>(t: Table<T>, p: T -> bool): (r: Option<Id>)
    requires WellFormed(t)
    ensures r.Some? ==> r.value in t.rows && p(t.rows[r.value])
    ensures r.Some? ==> forall id :: id < r.value && id in t.rows ==> !p(t.rows[id])
    ensures r.None? <==> forall id :: id in t.rows ==> !p(t.rows[id])
  {
    FirstBelow(t.rows, p, t.next)
  }

  /** Strictly increasing ids. */
  predicate Increasing(s: seq<Id>) {
    forall i, j :: 0 <= i < j < |s| ==> s[i] < s[j]
  }

  /** The ids below `n` whose rows satisfy `p`, ascending (Prisma's `findMany`). */
  function SelectBelow<T>(rows: map<Id, T>, p: T -> bool, n: nat): (r: seq<Id>)
    ensures Increasing(r)
    ensures forall k :: 0 <= k < |r| ==> r[k] < n && r[k] in rows && p(rows[r[k]])
    ensures forall id :: id < n && id in rows && p(rows[id]) ==> id in r
  {
    if n == 0 then []
    else
      var s := SelectBelow(rows, p, n - 1);
      if n - 1 in rows && p(rows[n - 1]) then s + [n - 1] else s
  }

  function Select<T>(t: Table<T>, p: T -> bool): (r: seq<Id>)
    requires WellFormed(t)
    ensures Increasing(r)
    ensures forall k :: 0 <= k < |r| ==> r[k] in t.rows && p(t.rows[r[k]])
    ensures forall id :: id in t.rows && p(t.rows[id]) ==> id in r
  {
    SelectBelow(t.rows, p, t.next)
  }

  /** Weight 1 for rows satisfying `p`, 0 otherwise. */
  function Indicator<T>(p: T -> bool): T -> int {
    x => if p(x) then 1 else 0
  }

  /** Prisma's `count({ where })`: the number of rows satisfying `p`. */
  function Count<T>(t: Table<T>, p: T -> bool): int {
    Sum(t, Indicator(p))
  }

  lemma {:induction false} SumBelowIndicator<T>(rows: map<Id, T>, p: T -> bool, n: nat)
    ensures SumBelow(rows, Indicator(p), n) == |SelectBelow(rows, p, n)|
    ensures SumBelow(rows, Indicator(p), n) == 0 <==> forall id :: id < n && id in rows ==> !p(rows[id])
  {
    if n > 0 {
      SumBelowIndicator(rows, p, n - 1);
    }
  }

  /** The count is the length of the selection, and zero exactly when no row matches. */
  lemma CountSelect<T>(t: Table<T>, p: T -> bool)
    requires WellFormed(t)
    ensures Count(t, p) == |Select(t, p)|
    ensures Count(t, p) == 0 <==> forall id :: id in t.rows ==> !p(t.rows[id])
  {
    SumBelowIndicator(t.rows, p, t.next);
  }

  /** The selection is empty exactly when `findFirst` finds nothing. */
  lemma SelectEmptyIffNoFirst<T>(t: Table<T>, p: T -> bool)
    requires WellFormed(t)
    ensures Select(t, p) == [] <==> First(t, p).None?
  {
    if First(t, p).Some? {
      assert First(t, p).value in Select(t, p);
    }
    if Select(t, p) != [] {
      var id := Select(t, p)[0];
      assert id in t.rows && p(t.rows[id]);
    }
  }

  /** Reverse of a sequence (for descending creation order). */
  function Reverse<T(!new)>(s: seq<T>): (r: seq<T>)
    ensures |r| == |s|
    ensures forall k :: 0 <= k < |s| ==> r[k] == s[|s| - 1 - k]
    ensures forall x :: x in r <==> x in s
    ensures multiset(r) == multiset(s)
  {
    if s == [] then [] else
      assert s == [s[0]] + s[1..];
      Reverse(s[1..]) + [s[0]]
  }

  /** `key` takes distinct values on distinct rows (a unique constraint). */
  predicate Unique<T, K(==)>(t: Table<T>, key: T -> K) {
    forall i, j :: i in t.rows && j in t.rows && key(t.rows[i]) == key(t.rows[j]) ==> i == j
  }

  /** The rows satisfying `p`, in id order (Prisma's `findMany` without `orderBy`). */
  function FindMany<T>(t: Table<T>, p: T -> bool): (r: seq<T>)
    requires WellFormed(t)
    ensures |r| == |Select(t, p)|
    ensures forall k :: 0 <= k < |r| ==> r[k] == t.rows[Select(t, p)[k]] && p(r[k])
    ensures forall id :: id in t.rows && p(t.rows[id]) ==> t.rows[id] in r
  {
    var ids := Select(t, p);
    var r := seq(|ids|, k requires 0 <= k < |ids| => t.rows[ids[k]]);
    assert forall id :: id in t.rows && p(t.rows[id]) ==> t.rows[id] in r by {
      forall id | id in t.rows && p(t.rows[id]) ensures t.rows[id] in r {
        var k :| 0 <= k < |ids| && ids[k] == id;
        assert r[k] == t.rows[id];
      }
    }
    r
  }

  predicate Decreasing(ids: seq<Id>) {
    forall i, j :: 0 <= i < j < |ids| ==> ids[i] > ids[j]
  }

  /** The ids of the rows satisfying `p`, most recently created first (an
      `orderBy` on a creation timestamp, descending). */
  function Newest<T>(t: Table<T>, p: T -> bool): (r: seq<Id>)
    requires WellFormed(t)
    ensures Decreasing(r)
    ensures forall id :: id in r <==> id in t.rows && p(t.rows[id])
  {
    Reverse(Select(t, p))
  }
}
