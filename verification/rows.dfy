/** Table rows as a sequence in primary-key order, and the two queryset
    operations every store here uses: `filter(...)` and `get(...)`. */
module Rows {
  import opened Wrappers

  /** `queryset.filter(keep)`: the rows satisfying `keep`, in table order. */
  function Where<T(==,!new)>(rows: seq<T>, keep: T -> bool): (r: seq<T>)
    ensures |r| <= |rows|
    ensures forall x :: x in r <==> x in rows && keep(x)
    ensures forall i :: 0 <= i < |r| ==> keep(r[i])
    ensures forall x :: multiset(r)[x] == if keep(x) then multiset(rows)[x] else 0
    decreases |rows|
  {
    if |rows| == 0 then []
    else
      assert rows == [rows[0]] + rows[1..];
      assert multiset(rows) == multiset{rows[0]} + multiset(rows[1..]);
      if keep(rows[0]) then [rows[0]] + Where(rows[1..], keep)
      else Where(rows[1..], keep)
  }

  /** The position of the first row satisfying `hit`, if any. */
  function FirstWhere<T>(rows: seq<T>, hit: T -> bool): (r: Option<nat>)
    ensures r.Some? ==> r.value < |rows| && hit(rows[r.value])
    ensures r.Some? ==> forall j :: 0 <= j < r.value ==> !hit(rows[j])
    ensures r.None? ==> forall j :: 0 <= j < |rows| ==> !hit(rows[j])
    decreases |rows|
  {
    if |rows| == 0 then None
    else if hit(rows[0]) then Some(0)
    else
      match FirstWhere(rows[1..], hit)
      case Some(i) => Some(i + 1)
      case None => None
  }

  /** Filtering by two predicates that split `whole` into disjoint parts
      splits the filtered table the same way. */
  lemma {:induction false} WherePartition<T(!new)>(
    rows: seq<T>, whole: T -> bool, part1: T -> bool, part2: T -> bool)
    requires forall x :: whole(x) <==> part1(x) || part2(x)
    requires forall x :: !(part1(x) && part2(x))
    ensures multiset(Where(rows, part1)) + multiset(Where(rows, part2)) == multiset(Where(rows, whole))
    ensures |Where(rows, part1)| + |Where(rows, part2)| == |Where(rows, whole)|
    decreases |rows|
  {
    if |rows| > 0 {
      WherePartition(rows[1..], whole, part1, part2);
    }
  }

  /** A key larger than every key in the table: the next auto-increment
      value. */
  function NextKey<T>(rows: seq<T>, key: T -> nat): (r: nat)
    ensures r >= 1
    ensures forall i :: 0 <= i < |rows| ==> key(rows[i]) < r
    decreases |rows|
  {
    if |rows| == 0 then 1
    else
      var rest := NextKey(rows[1..], key);
      assert forall i :: 1 <= i < |rows| ==> rows[i] == rows[1..][i - 1];
      if key(rows[0]) < rest then rest else key(rows[0]) + 1
  }

  /** No two rows share a key. */
  predicate UniqueKeys<T>(rows: seq<T>, key: T -> nat) {
    forall i, j :: 0 <= i < j < |rows| ==> key(rows[i]) != key(rows[j])
  }

  /** Appending a row under a key no stored row has keeps the keys unique
      (an insert under the next auto-increment value, or a fresh UUID). */
  lemma AppendFreshKey<T>(rows: seq<T>, x: T, key: T -> nat)
    requires UniqueKeys(rows, key)
    requires forall i :: 0 <= i < |rows| ==> key(rows[i]) != key(x)
    ensures UniqueKeys(rows + [x], key)
  {
    var r := rows + [x];
    forall i, j | 0 <= i < j < |r|
      ensures key(r[i]) != key(r[j])
    {
      if j == |rows| {
        assert r[i] == rows[i];
      } else {
        assert r[i] == rows[i] && r[j] == rows[j];
      }
    }
  }

  /** Filtering a concatenation filters each part. */
  lemma {:induction false} WhereAppend<T(!new)>(a: seq<T>, b: seq<T>, keep: T -> bool)
    ensures Where(a + b, keep) == Where(a, keep) + Where(b, keep)
    decreases |a|
  {
    if |a| > 0 {
      assert (a + b)[1..] == a[1..] + b;
      WhereAppend(a[1..], b, keep);
    } else {
      assert a + b == b;
    }
  }

  /** `row.delete()`: the table without the row at position `i`, the other
      rows keeping their order. */
  function RemoveAt<T>(rows: seq<T>, i: nat): (r: seq<T>)
    requires i < |rows|
    ensures |r| == |rows| - 1
    ensures forall j :: 0 <= j < i ==> r[j] == rows[j]
    ensures forall j :: i <= j < |r| ==> r[j] == rows[j + 1]
  {
    rows[..i] + rows[i + 1..]
  }

  /** In a table with unique keys, removing the row at `i` removes exactly
      the rows with its key, and keeps the keys unique. */
  lemma RemoveAtByKey<T>(rows: seq<T>, i: nat, key: T -> nat)
    requires i < |rows| && UniqueKeys(rows, key)
    ensures UniqueKeys(RemoveAt(rows, i), key)
    ensures forall x :: x in RemoveAt(rows, i) <==> x in rows && key(x) != key(rows[i])
  {
    var r := RemoveAt(rows, i);
    forall x
      ensures x in r <==> x in rows && key(x) != key(rows[i])
    {
      if x in r {
        var k :| 0 <= k < |r| && r[k] == x;
        if k < i { assert rows[k] == x; } else { assert rows[k + 1] == x; }
      }
      if x in rows && key(x) != key(rows[i]) {
        var k :| 0 <= k < |rows| && rows[k] == x;
        assert x == r[if k < i then k else k - 1];
      }
    }
  }

  /** `[f(x) for x in s]`: what a `many=True` serializer does to a queryset. */
  function MapSeq<T, U>(s: seq<T>, f: T -> U): (r: seq<U>)
    ensures |r| == |s|
    ensures forall i :: 0 <= i < |s| ==> r[i] == f(s[i])
  {
    seq(|s|, i requires 0 <= i < |s| => f(s[i]))
  }
}
